/** The envelope around a batch on disk: header, payload, checksum.  A file that opens with the header
    is accepted only as a whole; older files are plain payloads; a file in which the serializer meets the
    end of its input passes for an empty batch.  */
module Envelope {
  import opened Prelude

  const HEADER: Bytes := [78, 65, 84, 87, 65, 76, 1, 0]
  const SUM_SIZE := 32

  // The end of the input, met where a value should begin, is told apart from every other failure.
  datatype Decoded<+Row> = Value(rows: seq<Row>) | Eof | Malformed

  // The serializer, which reads one value off the front, and the hash.
  datatype Codec<!Row> = Codec(encode: seq<Row> -> Bytes, decode: Bytes -> Decoded<Row>, sum: Bytes -> Bytes)

  // Decoding undoes encoding, whatever follows, and an empty input is at its end, though not it alone: so
  // is one that starts with an empty message.  A first byte below 128 is the length of the message that
  // follows, and sums have their size.
  ghost predicate Sound<Row(!new)>(c: Codec<Row>) {
    && (forall v, rest :: c.decode(c.encode(v) + rest) == Value(v))
    && (forall v :: c.encode(v) != [])
    && c.decode([]).Eof?
    && (forall b :: 0 < |b| && b[0] < 128 && |b| <= b[0] ==> c.decode(b).Malformed?)
    && (forall b :: |c.sum(b)| == 32)
  }

  function Seal<Row>(c: Codec<Row>, v: seq<Row>): Bytes {
    HEADER + c.encode(v) + c.sum(c.encode(v))
  }

  predicate Enveloped(file: Bytes) { HEADER <= file }

  // Room for a payload between header and checksum.
  predicate Roomy(file: Bytes) { |file| > |HEADER| + SUM_SIZE }

  function Payload(file: Bytes): Bytes
    requires Roomy(file)
  {
    file[|HEADER|..|file| - SUM_SIZE]
  }

  predicate SumAgrees<Row>(c: Codec<Row>, file: Bytes) {
    Roomy(file) && c.sum(Payload(file)) == file[|file| - SUM_SIZE..]
  }

  // A truncated or foreign header means a file from before the envelope.
  function Open<Row>(c: Codec<Row>, file: Bytes): Decoded<Row> {
    if !Enveloped(file) then c.decode(file)
    else if !Roomy(file) then Malformed
    else
      var d := c.decode(Payload(file));
      if d.Value? && !SumAgrees(c, file) then Malformed else d
  }

  // What the replay loop does with the file: the rows are sent and the file goes once they are stored,
  // or the attempt fails and brings the file nearer to quarantine, or it goes without anything being sent.
  datatype Fate<+Row> = Sent(rows: seq<Row>) | Failed | Removed

  // Oldest takes the end of the input for a batch without rows, and inserting no rows succeeds.
  function FateOf<Row>(c: Codec<Row>, file: Bytes): Fate<Row> {
    match Open(c, file)
    case Value(rows) => if rows == [] then Removed else Sent(rows)
    case Eof => Removed
    case Malformed => Failed
  }

  // What was sealed is sent as it was.
  lemma SealedIsSent<Row(!new)>(c: Codec<Row>, v: seq<Row>)
    requires Sound(c) && v != []
    ensures Seal(c, v) == [78, 65, 84, 87, 65, 76, 1, 0] + c.encode(v) + c.sum(c.encode(v))
    ensures FateOf(c, Seal(c, v)) == Sent(v)
  {
    var payload := c.encode(v);
    var file := Seal(c, v);
    assert file[..|HEADER|] == HEADER;
    assert Payload(file) == payload && file[|file| - SUM_SIZE..] == c.sum(payload);
    assert payload + [] == payload;
  }

  // An older file still is, too.
  lemma PlainIsSent<Row(!new)>(c: Codec<Row>, v: seq<Row>, rest: Bytes)
    requires Sound(c) && v != [] && !Enveloped(c.encode(v) + rest)
    ensures FateOf(c, c.encode(v) + rest) == Sent(v)
  {
  }

  // What the serializer is given to read.
  predicate Readable(file: Bytes) { Enveloped(file) ==> Roomy(file) }

  function Inside(file: Bytes): Bytes
    requires Readable(file)
  {
    if Enveloped(file) then Payload(file) else file
  }

  // Main result: of all files, exactly these are removed unread: those in which the serializer meets the
  // end of its input, whatever their checksum, and those that hold a batch without rows, which Begin
  // never writes.  The empty file is one of them.
  lemma RemovedIff<Row(!new)>(c: Codec<Row>, file: Bytes)
    requires Sound(c)
    ensures FateOf(c, file).Removed? <==>
      && Readable(file)
      && (c.decode(Inside(file)).Eof?
         || (c.decode(Inside(file)) == Value([]) && (Enveloped(file) ==> SumAgrees(c, file))))
    ensures file == [] ==> FateOf(c, file).Removed?
  {
  }

  // Main result: a file of the same length and header that differs from the sealed one anywhere but in
  // its checksum fails, unless the hash collides; or it is removed, if the damage makes the serializer
  // meet the end of its input, for then the checksum is not looked at.
  lemma DamageDetected<Row(!new)>(c: Codec<Row>, v: seq<Row>, file: Bytes)
    requires Sound(c) && |file| == |Seal(c, v)| && Enveloped(file) && file != Seal(c, v)
    requires file[|file| - SUM_SIZE..] == c.sum(c.encode(v))
    requires forall b :: c.sum(b) == c.sum(c.encode(v)) ==> b == c.encode(v)
    ensures Roomy(file) && FateOf(c, file) == if c.decode(Payload(file)).Eof? then Removed else Failed
  {
    assert file == HEADER + Payload(file) + file[|file| - SUM_SIZE..];
  }

  // Main result: a sealed file cut short anywhere fails, and so ends in quarantine, if and only if
  // something is left of it in which the serializer does not meet the end of its input, and which does
  // not happen to sum to its own last bytes.  Cut to nothing it is removed, and its batch with it.
  lemma CutShort<Row(!new)>(c: Codec<Row>, v: seq<Row>, n: nat, file: Bytes)
    requires Sound(c) && n < |Seal(c, v)| && file == Seal(c, v)[..n]
    ensures n == 0 ==> FateOf(c, file) == Removed
    ensures FateOf(c, file) == Failed <==>
      n > 0 && !(Roomy(file) && (c.decode(Payload(file)).Eof?
        || (SumAgrees(c, file) && c.decode(Payload(file)).Value?)))
  {
    if n < |HEADER| {
      ShortHeader(c, v, n, file);
    } else {
      assert file[..|HEADER|] == HEADER;
    }
  }

  // False of the code: "an undecodable file is quarantined".  A file of zeros, as a crash may leave one,
  // is removed by any serializer that takes a leading zero for an empty message.
  lemma ZerosRemoved<Row(!new)>(c: Codec<Row>, n: nat, file: Bytes)
    requires Sound(c) && (forall b | b != [] && b[0] == 0 :: c.decode(b).Eof?) && file == seq(n, _ => 0)
    ensures FateOf(c, file) == Removed
  {
    assert n > 0 ==> file[0] == 0 && HEADER[0] == 78;
  }

  // Less than a header is read as an older file: its first byte announces more bytes than there are.
  lemma ShortHeader<Row(!new)>(c: Codec<Row>, v: seq<Row>, n: nat, file: Bytes)
    requires Sound(c) && n < |HEADER| && n < |Seal(c, v)| && file == Seal(c, v)[..n]
    ensures FateOf(c, file) == if n == 0 then Removed else Failed
    ensures Roomy(file) == false
  {
    assert !Enveloped(file);
    if n > 0 { assert file[0] == HEADER[0] == 78; }
  }
}
