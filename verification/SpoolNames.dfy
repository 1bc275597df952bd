/** Spool file names: twenty zero-padded digits, so that names sort as their sequence numbers.  */
module SpoolNames {

  const FILE_EXT := ".spool"
  const WIDTH := 20

  function Pow10(n: nat): (p: nat)
    ensures p > 0
  {
    if n == 0 then 1 else 10 * Pow10(n - 1)
  }

  function Digit(d: nat): char
    requires d < 10
  {
    '0' + d as char
  }

  // The w digits of n, most significant first.
  function Digits(n: nat, w: nat): (s: string)
    requires n < Pow10(w)
    ensures |s| == w
  {
    if w == 0 then "" else Digits(n / 10, w - 1) + [Digit(n % 10)]
  }

  function FileName(n: nat): string
    requires n < Pow10(WIDTH)
  {
    Digits(n, WIDTH) + FILE_EXT
  }

  // Every 64-bit sequence number has a name.
  lemma SequenceFits(n: nat)
    requires n < 0x1_0000_0000_0000_0000
    ensures n < Pow10(WIDTH)
  {
    assert Pow10(5) == 100000;
    assert Pow10(10) == 10000000000;
    assert Pow10(15) == 1000000000000000;
  }

  // ---- string order ----

  predicate Before(a: string, b: string) {
    b != [] && (a == [] || a[0] < b[0] || (a[0] == b[0] && Before(a[1..], b[1..])))
  }

  // Digits followed by anything sort as the numbers do, and equal numbers as what follows.
  lemma {:induction false} DigitsOrder(a: nat, b: nat, w: nat, x: string, y: string)
    requires a < Pow10(w) && b < Pow10(w)
    ensures Before(Digits(a, w) + x, Digits(b, w) + y) <==> a < b || (a == b && Before(x, y))
    decreases w
  {
    if w == 0 {
      assert "" + x == x && "" + y == y;
    } else {
      var x', y' := [Digit(a % 10)] + x, [Digit(b % 10)] + y;
      DigitsOrder(a / 10, b / 10, w - 1, x', y');
      assert Digits(a, w) + x == Digits(a / 10, w - 1) + x' && Digits(b, w) + y == Digits(b / 10, w - 1) + y';
      assert x'[1..] == x && y'[1..] == y;
    }
  }

  lemma {:induction false} NotBeforeItself(s: string)
    ensures !Before(s, s)
    decreases |s|
  {
    if s != [] { NotBeforeItself(s[1..]); }
  }

  // Main result: names sort as numbers.
  lemma NamesSortAsNumbers(a: nat, b: nat)
    requires a < Pow10(WIDTH) && b < Pow10(WIDTH)
    ensures Before(FileName(a), FileName(b)) <==> a < b
  {
    DigitsOrder(a, b, WIDTH, FILE_EXT, FILE_EXT);
    NotBeforeItself(FILE_EXT);
  }

  // ---- reading a name back ----

  predicate IsDigit(c: char) { '0' <= c <= '9' }

  // The number in the leading digits, `w` at most, and what follows them.
  function Scan(s: string, w: nat, acc: nat): (nat, string)
    decreases w
  {
    if w == 0 || s == [] || !IsDigit(s[0]) then (acc, s) else Scan(s[1..], w - 1, 10 * acc + (s[0] - '0') as nat)
  }

  // Zero for a name of another form.
  function SeqOf(name: string): nat {
    var r := Scan(name, WIDTH, 0);
    if name == [] || !IsDigit(name[0]) || !(FILE_EXT <= r.1) || r.0 >= 0x1_0000_0000_0000_0000 then 0 else r.0
  }

  lemma {:induction false} ScanDigits(n: nat, w: nat, ext: string, k: nat)
    requires n < Pow10(w)
    ensures Scan(Digits(n, w) + ext, w + k, 0) == Scan(ext, k, n)
    decreases w
  {
    if w == 0 {
      assert "" + ext == ext;
    } else {
      var ext' := [Digit(n % 10)] + ext;
      ScanDigits(n / 10, w - 1, ext', k + 1);
      assert Digits(n, w) + ext == Digits(n / 10, w - 1) + ext' && ext'[1..] == ext;
    }
  }

  lemma {:induction false} DigitsAreDigits(n: nat, w: nat)
    requires n < Pow10(w) && w > 0
    ensures IsDigit(Digits(n, w)[0])
    decreases w
  {
    if w > 1 { DigitsAreDigits(n / 10, w - 1); }
  }

  lemma NameReadBack(n: nat)
    requires n < 0x1_0000_0000_0000_0000
    ensures n < Pow10(WIDTH) && SeqOf(FileName(n)) == n
  {
    SequenceFits(n);
    ScanDigits(n, WIDTH, FILE_EXT, 0);
    DigitsAreDigits(n, WIDTH);
  }

  lemma NameShape(n: nat)
    requires n < 0x1_0000_0000_0000_0000
    ensures n < Pow10(20) && |FileName(n)| == 26 && FileName(n)[20..] == ".spool"
  {
    SequenceFits(n);
  }

  lemma NameKnown()
    ensures Pow10(5) == 100_000 && 90_210 < Pow10(5) && Digits(90_210, 5) == "90210"
  {
  }

  // ---- the oldest batch ----

  // The first name in string order; of spool files, the smallest sequence number.
  method OldestName(names: seq<string>) returns (name: string)
    requires names != []
    ensures name in names && forall i | 0 <= i < |names| :: !Before(names[i], name)
  {
    name := names[0];
    NotBeforeItself(name);
    for i := 1 to |names|
      invariant name in names && forall k | 0 <= k < i :: !Before(names[k], name)
    {
      if Before(names[i], name) {
        forall k | 0 <= k < i ensures !Before(names[k], names[i]) {
          if Before(names[k], names[i]) { BeforeTwice(names[k], names[i], name); }
        }
        name := names[i];
      }
      NotBeforeItself(names[i]);
    }
  }

  lemma {:induction false} BeforeTwice(a: string, b: string, c: string)
    requires Before(a, b) && Before(b, c)
    ensures Before(a, c)
    decreases |a|
  {
    if a != [] && a[0] == b[0] == c[0] { BeforeTwice(a[1..], b[1..], c[1..]); }
  }

  lemma OldestIsSmallest(numbers: seq<nat>, names: seq<string>, n: nat)
    requires |numbers| == |names| && n < Pow10(WIDTH)
    requires forall i | 0 <= i < |numbers| ::
      numbers[i] < Pow10(WIDTH) && names[i] == FileName(numbers[i]) && !Before(names[i], FileName(n))
    ensures forall i | 0 <= i < |numbers| :: n <= numbers[i]
  {
    forall i | 0 <= i < |numbers| ensures n <= numbers[i] {
      NamesSortAsNumbers(numbers[i], n);
    }
  }
}
