/** The alert monitors: what they mail over any run of ticks.  */
module Monitor {

  // Nanoseconds; zero is the time nothing has happened at.
  type Time = nat

  // A down alert or a recovery notice, with the reminder interval in force when it was decided.
  datatype Mail = Mail(at: Time, remind: int, recovered: bool)

  // A recovery follows an alert, and an alert that repeats another comes at least `remind` after it.
  ghost predicate Paired(ms: seq<Mail>) {
    && (ms != [] ==> !ms[0].recovered)
    && forall i, j | 0 <= i < j < |ms| && j == i + 1 :: Follows(ms[i], ms[j])
  }

  predicate Follows(a: Mail, b: Mail) {
    if b.recovered then !a.recovered else !a.recovered ==> b.at - a.at >= b.remind
  }

  // An alert is outstanding.
  predicate Open(ms: seq<Mail>) { ms != [] && !ms[|ms| - 1].recovered }

  lemma PairedNext(ms: seq<Mail>, m: Mail)
    requires Paired(ms) && (m.recovered ==> Open(ms))
    requires !m.recovered && Open(ms) ==> m.at - ms[|ms| - 1].at >= m.remind
    ensures Paired(ms + [m]) && (Open(ms + [m]) <==> !m.recovered)
  {
  }

  // Main result: within an episode, whatever lies between, alerts are at least the later one's interval
  // apart, and every recovery ends an episode that an alert began.
  lemma {:induction false} Episodes(ms: seq<Mail>, i: nat, j: nat)
    requires Paired(ms) && i < j < |ms| && (forall k | i <= k < j :: !ms[k].recovered)
    requires forall k | 0 <= k < |ms| - 1 :: ms[k].at <= ms[k + 1].at
    ensures !ms[j].recovered ==> ms[j].at - ms[i].at >= ms[j].remind
    ensures ms[j].recovered ==> !ms[j - 1].recovered
  {
    Later(ms, i, j - 1);
    assert Follows(ms[j - 1], ms[j]);
  }

  lemma {:induction false} Later(ms: seq<Mail>, i: nat, j: nat)
    requires i <= j < |ms| && forall k | 0 <= k < |ms| - 1 :: ms[k].at <= ms[k + 1].at
    ensures ms[i].at <= ms[j].at
    decreases j
  {
    if i < j { Later(ms, i, j - 1); }
  }

  // ---- devices ----

  datatype Status = Init | Healthy | Silent

  datatype Health = Health(status: Status, lastFlow: Time, lastAlertAt: Time)

  const NEW: Health := Health(Init, 0, 0)

  datatype Device = Device(key: string, enabled: bool)

  datatype Pending = Pending(device: Device, state: Health, recovered: bool)

  function Live(devs: seq<Device>): set<string> {
    set d | d in devs && d.enabled :: d.key
  }

  function Known<T>(m: map<string, T>, key: string, none: T): T { if key in m then m[key] else none }

  function Later2(a: Time, b: Time): Time { if a < b then b else a }

  // What is mailed for a device, from what was known of it and its latest flow.
  function Due(was: Health, flow: Time, silence: int, remind: int, now: Time): seq<Mail> {
    if flow == 0 then []
    else if now - flow <= silence then (if was.status.Silent? then [Mail(now, remind, true)] else [])
    else if was.status.Silent? && !(remind > 0 && now - was.lastAlertAt >= remind) then []
    else [Mail(now, remind, false)]
  }

  // Silent exactly if it was ever heard of and not within `silence`; the latest flow only moves forward.
  predicate Judged(was: Health, heard: Time, silence: int, now: Time, h: Health) {
    && h.lastFlow == Later2(was.lastFlow, heard)
    && if h.lastFlow == 0 then h.status == was.status else h.status == if now - h.lastFlow > silence then Silent
       else Healthy
  }

  // The mails of this tick for one device.
  function Of(key: string, toSend: seq<Pending>, now: Time, remind: int): seq<Mail> {
    if toSend == [] then []
    else
      var before, last := Of(key, toSend[..|toSend| - 1], now, remind), toSend[|toSend| - 1];
      if last.device.key == key then before + [Mail(now, remind, last.recovered)] else before
  }

  lemma OfNext(key: string, toSend: seq<Pending>, p: Pending, now: Time, remind: int)
    ensures Of(key, toSend + [p], now, remind)
         == Of(key, toSend, now, remind) + if p.device.key == key then [Mail(now, remind, p.recovered)] else []
  {
    assert (toSend + [p])[..|toSend|] == toSend;
    assert Of(key, toSend, now, remind) + [] == Of(key, toSend, now, remind);
  }

  // What is remembered of a device agrees with what was mailed about it.
  ghost predicate Agrees(h: Health, ms: seq<Mail>) {
    Paired(ms) && (h.status.Silent? <==> Open(ms)) && (Open(ms) ==> ms[|ms| - 1].at == h.lastAlertAt)
  }

  lemma DueAgrees(was: Health, ms: seq<Mail>, h: Health, heard: Time, silence: int, remind: int, now: Time,
                  due: seq<Mail>)
    requires Agrees(was, ms) && Judged(was, heard, silence, now, h) && due == Due(was, h.lastFlow, silence, remind, now)
    requires h.lastAlertAt == if due != [] && !due[0].recovered then now else was.lastAlertAt
    ensures Agrees(h, ms + due)
  {
    if due == [] { assert ms + due == ms; } else { PairedNext(ms, due[0]); }
  }

  class DeviceMonitor {
    var health: map<string, Health>
    // Everything mailed about a device since it was last enabled.
    ghost var mails: map<string, seq<Mail>>

    constructor ()
      ensures Inv() && health == map[]
    {
      health, mails := map[], map[];
    }

    ghost predicate Inv()
      reads this
    {
      mails.Keys == health.Keys && forall k | k in health :: Agrees(health[k], mails[k])
    }

    // One device: its state moves on, and it may need a mail.
    method Judge(key: string, heard: Time, silence: int, remind: int, now: Time) returns (mail: bool, recovered: bool)
      modifies this`health
      ensures key in health && health == old(health)[key := health[key]]
      ensures var was, h := Known(old(health), key, NEW), health[key];
        && Judged(was, heard, silence, now, h)
        && (if mail then [Mail(now, remind, recovered)] else []) == Due(was, h.lastFlow, silence, remind, now)
        && h.lastAlertAt == if mail && !recovered then now else was.lastAlertAt
    {
      mail, recovered := false, false;
      if key !in health { health := health[key := NEW]; }
      var st := health[key];
      if heard > st.lastFlow { st := st.(lastFlow := heard); }
      if st.lastFlow != 0 {
        var down := now - st.lastFlow > silence;
        if down && !st.status.Silent? {
          st := st.(status := Silent, lastAlertAt := now);
          mail := true;
        } else if down && remind > 0 && now - st.lastAlertAt >= remind {
          st := st.(lastAlertAt := now);
          mail := true;
        } else if !down && st.status.Silent? {
          st := st.(status := Healthy);
          mail, recovered := true, true;
        } else if !down {
          st := st.(status := Healthy);
        }
      }
      health := health[key := st];
    }

    // Main result: one tick.  Every enabled device is judged once, however often it is listed, and mailed
    // what is due; devices no longer enabled are forgotten; alerts and recoveries stay paired.
    method EvalTransitions(devs: seq<Device>, seen: map<string, Time>, silence: int, remind: int, now: Time)
        returns (toSend: seq<Pending>)
      requires Inv()
      modifies this
      ensures Inv() && health.Keys == Live(devs)
      ensures forall k | k in health :: Judged(Known(old(health), k, NEW), Known(seen, k, 0), silence, now, health[k])
      ensures forall k | k in health ::
        Of(k, toSend, now, remind) == Due(Known(old(health), k, NEW), health[k].lastFlow, silence, remind, now)
      ensures forall k | k in health :: mails[k] == Known(old(mails), k, []) + Of(k, toSend, now, remind)
    {
      ghost var was, said := health, mails;
      var live;
      toSend, live := JudgeAll(devs, seen, silence, remind, now);
      ghost var sent, all := toSend, health;
      health := map k | k in health && k in live :: health[k];
      mails := map k | k in health :: Known(said, k, []) + Of(k, sent, now, remind);
      forall k | k in health
        ensures Settled(was, k, Known(seen, k, 0), silence, remind, now, health[k], Of(k, sent, now, remind))
      {
        assert Settled(was, k, Known(seen, k, 0), silence, remind, now, all[k], Of(k, sent, now, remind));
      }
      forall k | k in health ensures Agrees(health[k], mails[k]) {
        DueAgrees(Known(was, k, NEW), Known(said, k, []), health[k], Known(seen, k, 0), silence, remind, now,
                  Of(k, sent, now, remind));
      }
    }

    // The loop over the devices; `live` are the enabled ones.
    method JudgeAll(devs: seq<Device>, seen: map<string, Time>, silence: int, remind: int, now: Time)
        returns (toSend: seq<Pending>, live: set<string>)
      modifies this`health
      ensures live == Live(devs)
        && Progress(old(health), live, health, SentOf(toSend, now, remind), seen, silence, remind, now)
    {
      toSend, live := [], {};
      for i := 0 to |devs|
        invariant live == Live(devs[..i])
          && Progress(old(health), live, health, SentOf(toSend, now, remind), seen, silence, remind, now)
      {
        LiveNext(devs, i);
        if devs[i].enabled {
          toSend := JudgeNext(devs[i], seen, silence, remind, now, toSend, old(health), live);
          live := live + {devs[i].key};
        }
      }
      assert devs[..|devs|] == devs;
    }

    // The next enabled device; judged a second time in one tick, it stays as it is.
    method JudgeNext(dev: Device, seen: map<string, Time>, silence: int, remind: int, now: Time, toSend: seq<Pending>,
                     ghost was: map<string, Health>, ghost live: set<string>)
      returns (toSend': seq<Pending>)
      requires Progress(was, live, health, SentOf(toSend, now, remind), seen, silence, remind, now)
      modifies this`health
      ensures Progress(was, live + {dev.key}, health, SentOf(toSend', now, remind), seen, silence, remind, now)
    {
      ghost var before := health;
      var mail, recovered := Judge(dev.key, Known(seen, dev.key, 0), silence, remind, now);
      toSend' := toSend;
      if mail {
        var p := Pending(dev, health[dev.key], recovered);
        toSend' := toSend + [p];
        forall k
          ensures Of(k, toSend', now, remind)
                  == Of(k, toSend, now, remind) + if k == dev.key then [Mail(now, remind, recovered)] else []
        {
          OfNext(k, toSend, p, now, remind);
        }
      }
      assert Of(dev.key, toSend, now, remind) + [] == Of(dev.key, toSend, now, remind);
      Onward(was, live, before, health, SentOf(toSend, now, remind), SentOf(toSend', now, remind), seen, silence,
             remind, now, dev.key, mail, recovered);
    }
  }

  lemma LiveNext(devs: seq<Device>, i: nat)
    requires i < |devs|
    ensures Live(devs[..i + 1]) == Live(devs[..i]) + if devs[i].enabled then {devs[i].key} else {}
  {
    assert devs[..i + 1] == devs[..i] + [devs[i]];
  }

  function SentOf(toSend: seq<Pending>, now: Time, remind: int): string -> seq<Mail> {
    k => Of(k, toSend, now, remind)
  }

  // The devices of `live` have been judged and no others.
  ghost predicate Progress(was: map<string, Health>, live: set<string>, health: map<string, Health>,
                           sent: string -> seq<Mail>,
                           seen: map<string, Time>, silence: int, remind: int, now: Time)
  {
    && health.Keys == was.Keys + live
    && (forall k | k in was && k !in live :: health[k] == was[k])
    && (forall k | k !in live :: sent(k) == [])
    && (forall k | k in live :: Settled(was, k, Known(seen, k, 0), silence, remind, now, health[k], sent(k)))
  }

  lemma Onward(was: map<string, Health>, live: set<string>, before: map<string, Health>, after: map<string, Health>,
               sent: string -> seq<Mail>,
               sent': string -> seq<Mail>, seen: map<string, Time>, silence: int, remind: int, now: Time, key: string,
                   mail: bool, recovered: bool)
    requires Progress(was, live, before, sent, seen, silence, remind, now) && key in after
      && after == before[key := after[key]]
    requires Judged(Known(before, key, NEW), Known(seen, key, 0), silence, now, after[key])
    requires (if mail then [Mail(now, remind, recovered)] else [])
           == Due(Known(before, key, NEW), after[key].lastFlow, silence, remind, now)
    requires after[key].lastAlertAt == if mail && !recovered then now else Known(before, key, NEW).lastAlertAt
    requires (forall k | k != key :: sent'(k) == sent(k))
      && sent'(key) == sent(key) + if mail then [Mail(now, remind, recovered)] else []
    ensures Progress(was, live + {key}, after, sent', seen, silence, remind, now)
  {
    OthersStay(was, live, before, after, sent, sent', seen, silence, remind, now, key);
    SettledNow(was, key, Known(seen, key, 0), silence, remind, now, Known(before, key, NEW), after[key], sent(key),
               sent'(key), key in live, mail, recovered);
  }

  lemma OthersStay(was: map<string, Health>, live: set<string>, before: map<string, Health>,
                   after: map<string, Health>, sent: string -> seq<Mail>,
                   sent': string -> seq<Mail>, seen: map<string, Time>, silence: int, remind: int, now: Time,
                       key: string)
    requires Progress(was, live, before, sent, seen, silence, remind, now) && key in after
      && after == before[key := after[key]]
    requires forall k | k != key :: sent'(k) == sent(k)
    ensures after.Keys == was.Keys + (live + {key})
    ensures forall k | k in was && k !in live + {key} :: after[k] == was[k]
    ensures forall k | k in live && k != key ::
      Settled(was, k, Known(seen, k, 0), silence, remind, now, after[k], sent'(k))
  {
  }

  // Judged for the first time in this tick, or once more without effect.
  lemma SettledNow(was: map<string, Health>, key: string, heard: Time, silence: int, remind: int, now: Time,
                   h: Health, h': Health,
                   sent: seq<Mail>, sent': seq<Mail>, again: bool, mail: bool, recovered: bool)
    requires if again then Settled(was, key, heard, silence, remind, now, h, sent)
      else h == Known(was, key, NEW) && sent == []
    requires Judged(h, heard, silence, now, h')
      && (if mail then [Mail(now, remind, recovered)] else []) == Due(h, h'.lastFlow, silence, remind, now)
    requires h'.lastAlertAt == (if mail && !recovered then now else h.lastAlertAt)
    requires sent' == sent + if mail then [Mail(now, remind, recovered)] else []
    ensures Settled(was, key, heard, silence, remind, now, h', sent')
  {
    assert again ==> !mail;
    assert sent + [] == sent;
  }

  // A device after it was judged in this tick.
  predicate Settled(was: map<string, Health>, key: string, heard: Time, silence: int, remind: int, now: Time,
                    h: Health, sent: seq<Mail>) {
    && Judged(Known(was, key, NEW), heard, silence, now, h)
    && sent == Due(Known(was, key, NEW), h.lastFlow, silence, remind, now)
    && h.lastAlertAt == if sent != [] && !sent[0].recovered then now else Known(was, key, NEW).lastAlertAt
  }

  // ---- ingest ----

  const U64 := 0x1_0000_0000_0000_0000

  type Counter = x: nat | x < U64

  // Counters since the process started; they wrap.
  datatype Sample = Sample(decoded: Counter, inserted: Counter, errors: Counter)

  function Minus(a: Counter, b: Counter): Counter { (a - b) % U64 }

  function Plus(a: Counter, b: Counter): Counter { (a + b) % U64 }

  lemma Telescope(a: Counter, b: Counter, c: Counter)
    ensures Plus(Minus(b, a), Minus(c, b)) == Minus(c, a)
    ensures a <= b ==> Minus(b, a) == b - a
    ensures a <= b <= c ==> Plus(b - a, c - b) == c - a
    ensures Minus(b, a) == 0 <==> a == b
  {
    assert Minus(b, a) == if a <= b then b - a else b - a + U64;
    assert Minus(c, b) == if b <= c then c - b else c - b + U64;
    assert Minus(c, a) == if a <= c then c - a else c - a + U64;
  }

  datatype Deltas = Deltas(decoded: Counter, inserted: Counter, errors: Counter, window: nat)

  const STALL_TICKS := 5

  // What happened between two samples.
  datatype Tick = Rebased | Landed | Stalled | Idle

  // The first sample, or counters that went back: the process restarted.
  function TickAt(log: seq<Sample>, i: nat): Tick
    requires i < |log|
  {
    if i == 0 then Rebased
    else
      var a, b := log[i - 1], log[i];
      if b.decoded < a.decoded || b.inserted < a.inserted then Rebased
      else if b.inserted > a.inserted then Landed
      else if b.decoded > a.decoded || b.errors != a.errors then Stalled
      else Idle
  }

  // The last sample up to the i-th at which something was inserted or counting began anew.
  function Base(log: seq<Sample>, i: nat): nat
    requires i < |log|
  {
    if TickAt(log, i).Rebased? || TickAt(log, i).Landed? then i else Base(log, i - 1)
  }

  // The stalled ticks since then.
  function Stalls(log: seq<Sample>, i: nat): nat
    requires i < |log|
  {
    if TickAt(log, i).Rebased? || TickAt(log, i).Landed? then 0
    else Stalls(log, i - 1) + if TickAt(log, i).Stalled? then 1 else 0
  }

  // Main result: since that sample nothing was inserted, the flows decoded add up to the difference of
  // the two samples, and there are no more stalled ticks than ticks.
  lemma {:induction false} SinceBase(log: seq<Sample>, i: nat, b: nat)
    requires i < |log| && b == Base(log, i)
    ensures b <= i && Stalls(log, i) <= i - b && log[b].inserted == log[i].inserted && log[b].decoded <= log[i].decoded
    ensures forall k | b < k <= i :: TickAt(log, k).Stalled? || TickAt(log, k).Idle?
    decreases i
  {
    if !TickAt(log, i).Rebased? && !TickAt(log, i).Landed? { SinceBase(log, i - 1, b); }
  }

  lemma {:induction false} Earlier(log: seq<Sample>, cur: Sample, i: nat)
    requires i < |log|
    ensures TickAt(log + [cur], i) == TickAt(log, i) && Base(log + [cur], i) == Base(log, i)
      && Stalls(log + [cur], i) == Stalls(log, i)
    decreases i
  {
    if i > 0 { Earlier(log, cur, i - 1); }
  }

  class IngestMonitor {
    var prev: Sample
    var havePrev: bool
    var stalled: nat
    var alerted: bool
    var stallDecoded: Counter
    var stallErrors: Counter
    var lastAlert: Time

    ghost var log: seq<Sample>
    ghost var mails: seq<Mail>

    constructor ()
      ensures Inv() && log == [] && mails == []
    {
      prev, havePrev, stalled, alerted, lastAlert := Sample(0, 0, 0), false, 0, false, 0;
      stallDecoded, stallErrors := 0, 0;
      log, mails := [], [];
    }

    // The state is a summary of the samples and the mails.  Five stalled ticks never pass without an
    // alert being outstanding.
    ghost predicate Inv()
      reads this
    {
      && Paired(mails) && (alerted <==> Open(mails)) && (alerted ==> mails[|mails| - 1].at == lastAlert)
      && (havePrev <==> log != []) && (stalled >= STALL_TICKS ==> alerted)
      && (log == [] ==> stalled == 0)
      && (log != [] ==> Summary(log, |log| - 1, prev, stalled, stallDecoded, stallErrors))
    }

    // Main result: one tick.  A recovery is due exactly when something was inserted while an alert was
    // outstanding, an alert exactly when five ticks have stalled since the last insertion and none is
    // outstanding or the last is old enough; it reports all that was decoded and failed since then.
    method EvalTick(cur: Sample, remind: int, now: Time) returns (alert: bool, recovered: bool, d: Deltas)
      requires Inv()
      modifies this
      ensures Inv() && log == old(log) + [cur]
      ensures mails == old(mails) + if alert || recovered then [Mail(now, remind, recovered)] else []
      ensures recovered <==> TickAt(log, |log| - 1).Landed? && Open(old(mails))
      ensures alert <==>
        && TickAt(log, |log| - 1).Stalled? && Stalls(log, |log| - 1) >= 5
        && (Open(old(mails)) ==> now - old(mails)[|old(mails)| - 1].at >= remind)
      ensures alert ==> d == Since(log[Base(log, |log| - 1)], cur, Stalls(log, |log| - 1))
      ensures Stalls(log, |log| - 1) >= 5 ==> Open(mails)
    {
      alert, recovered, d := false, false, Deltas(0, 0, 0, 0);
      if !havePrev || cur.decoded < prev.decoded || cur.inserted < prev.inserted {
        Rebase(cur);
        return;
      }
      d := Deltas(Minus(cur.decoded, prev.decoded), Minus(cur.inserted, prev.inserted),
                  Minus(cur.errors, prev.errors), 0);
      SummaryNext(log, log + [cur], cur, prev, stalled, stallDecoded, stallErrors, d);
      if d.inserted == 0 && (d.decoded > 0 || d.errors > 0) {
        alert, d := Stall(cur, d, remind, now);
      } else if d.inserted > 0 {
        recovered := Land(cur, remind, now);
      } else {
        Rest(cur);
      }
    }

    // The first sample, or the first after the counters went back.
    method Rebase(cur: Sample)
      requires Inv() && TickAt(log + [cur], |log|).Rebased?
      modifies this
      ensures Inv() && log == old(log) + [cur] && mails == old(mails) + []
    {
      prev, havePrev, stalled := cur, true, 0;
      stallDecoded, stallErrors := 0, 0;
      log := log + [cur];
      SummaryFirst(log, cur);
      assert mails + [] == mails;
    }

    // Nothing happened at all.
    method Rest(cur: Sample)
      requires Inv() && log != [] && Summary(log + [cur], |log|, cur, stalled, stallDecoded, stallErrors)
      modifies this
      ensures Inv() && log == old(log) + [cur] && mails == old(mails) + []
    {
      prev, log := cur, log + [cur];
      assert mails + [] == mails;
    }

    // Work arrived, or batches died, and nothing landed in the database.
    method Stall(cur: Sample, d: Deltas, remind: int, now: Time) returns (alert: bool, d': Deltas)
      requires Inv() && log != [] && TickAt(log + [cur], |log|).Stalled? && d.inserted == 0
      requires Summary(log + [cur], |log|, cur, stalled + 1, Plus(stallDecoded, d.decoded), Plus(stallErrors, d.errors))
      modifies this
      ensures Inv() && log == old(log) + [cur] && mails == old(mails) + if alert then [Mail(now, remind, false)] else []
      ensures alert <==>
        && Stalls(log, |log| - 1) >= STALL_TICKS
        && (Open(old(mails)) ==> now - old(mails)[|old(mails)| - 1].at >= remind)
      ensures alert ==> d' == Since(log[Base(log, |log| - 1)], cur, Stalls(log, |log| - 1))
    {
      alert, d' := false, d;
      prev, log, stalled := cur, log + [cur], stalled + 1;
      stallDecoded, stallErrors := Plus(stallDecoded, d.decoded), Plus(stallErrors, d.errors);
      assert mails + [] == mails;
      if stalled >= STALL_TICKS && (!alerted || now - lastAlert >= remind) {
        alerted, lastAlert, alert := true, now, true;
        d' := Deltas(stallDecoded, d.inserted, stallErrors, stalled);
        PairedNext(mails, Mail(now, remind, false));
        mails := mails + [Mail(now, remind, false)];
      }
    }

    // Something was inserted.
    method Land(cur: Sample, remind: int, now: Time) returns (recovered: bool)
      requires Inv() && Summary(log + [cur], |log|, cur, 0, 0, 0) && log != []
      modifies this
      ensures Inv() && log == old(log) + [cur]
        && mails == old(mails) + if recovered then [Mail(now, remind, true)] else []
      ensures recovered <==> Open(old(mails))
    {
      recovered := false;
      prev, log, stalled := cur, log + [cur], 0;
      stallDecoded, stallErrors := 0, 0;
      assert mails + [] == mails;
      if alerted {
        alerted, recovered := false, true;
        PairedNext(mails, Mail(now, remind, true));
        mails := mails + [Mail(now, remind, true)];
      }
    }
  }

  lemma SummaryFirst(log: seq<Sample>, cur: Sample)
    requires log != [] && log[|log| - 1] == cur && TickAt(log, |log| - 1).Rebased?
    ensures Summary(log, |log| - 1, cur, 0, 0, 0)
  {
  }

  // What an alert reports: nothing inserted, and the rest as the difference of two samples.
  function Since(base: Sample, cur: Sample, window: nat): Deltas {
    Deltas(Minus(cur.decoded, base.decoded), 0, Minus(cur.errors, base.errors), window)
  }

  predicate Summary(log: seq<Sample>, i: nat, prev: Sample, stalled: nat, decoded: Counter, errors: Counter)
    requires i < |log|
  {
    prev == log[i] && stalled == Stalls(log, i) && Base(log, i) < |log|
    && decoded == Minus(prev.decoded, log[Base(log, i)].decoded)
    && errors == Minus(prev.errors, log[Base(log, i)].errors)
  }

  lemma SummaryNext(was: seq<Sample>, log: seq<Sample>, cur: Sample, prev: Sample, stalled: nat,
                    decoded: Counter, errors: Counter, d: Deltas)
    requires was != [] && log == was + [cur] && Summary(was, |was| - 1, prev, stalled, decoded, errors)
    requires cur.decoded >= prev.decoded && cur.inserted >= prev.inserted
    requires d == Deltas(Minus(cur.decoded, prev.decoded), Minus(cur.inserted, prev.inserted),
                         Minus(cur.errors, prev.errors), 0)
    ensures var i := |was|;
      && (TickAt(log, i).Landed? <==> d.inserted > 0)
      && (TickAt(log, i).Stalled? <==> d.inserted == 0 && (d.decoded > 0 || d.errors > 0))
      && !TickAt(log, i).Rebased?
      && (if d.inserted > 0 then Summary(log, i, cur, 0, 0, 0)
          else if d.decoded > 0 || d.errors > 0
            then Summary(log, i, cur, stalled + 1, Plus(decoded, d.decoded), Plus(errors, d.errors))
          else Summary(log, i, cur, stalled, decoded, errors))
  {
    var i := |was|;
    Earlier(was, cur, i - 1);
    assert log[i - 1] == was[i - 1] && log[i] == cur;
    Telescope(prev.inserted, cur.inserted, cur.inserted);
    Telescope(prev.decoded, cur.decoded, cur.decoded);
    Telescope(prev.errors, cur.errors, cur.errors);
    var b := Base(was, i - 1);
    SinceBase(was, i - 1, b);
    assert log[b] == was[b];
    Telescope(log[b].decoded, prev.decoded, cur.decoded);
    Telescope(log[b].errors, prev.errors, cur.errors);
  }
}
