/** The hash-chained audit trail (common/audit_log.py). A file is a sequence of complete lines;
    events are JSON objects, and their text encoding is not modelled. */
module AuditLog {
  import opened Options
  import opened Json

  // The keyword fields of the program's own log_event calls, and any other.
  datatype FieldName =
    | Kind | SourceIp | Decision | ReasonField | Resource | Username | Role | RoleLevel | DeviceId | TrustScore
    | AttestedFlag | Jti | TokenBound | Thumbprint | CorrelationId
    | Other(text: string)

  datatype EventKey = Hash | PrevHash | Timestamp | TimestampIso | Field(name: FieldName)

  type Event = JObj<EventKey>

  datatype Line = Blank | Garbled(text: string) | Entry(event: Event)

  // SHA-256 as a hex digest, and json.dumps with sorted keys, which json.loads undoes.
  datatype Digest = Digest(sha: string -> string, dumps: Event -> string, loads: string -> Event)

  const HASH_LENGTH := 64

  // "0" * 64
  function Genesis(): string {
    seq(HASH_LENGTH, _ => '0')
  }

  ghost predicate WellFormed(d: Digest) {
    && (forall text :: |d.sha(text)| == HASH_LENGTH)
    && (forall e :: d.loads(d.dumps(e)) == e)
  }

  function Payload(d: Digest, prev: string, event: Event): string {
    d.dumps(event) + prev
  }

  function ComputeHash(d: Digest, prev: string, event: Event): string {
    d.sha(Payload(d, prev, event))
  }

  // event.get(Hash). A hash that is not a string is outside the model.
  function HashOf(event: Event): Option<string> {
    match Json.Get(event, Hash)
    case Some(JStr(h)) => Some(h)
    case _ => None
  }

  function WithoutHash(event: Event): Event {
    event - {Hash}
  }

  // ---- Reading ----

  function Events(lines: seq<Line>): seq<Event> {
    if lines == [] then []
    else Events(lines[..|lines| - 1]) + (if lines[|lines| - 1].Entry? then [lines[|lines| - 1].event] else [])
  }

  function LastHash(lines: seq<Line>): string {
    if lines == [] then Genesis()
    else
      var last := lines[|lines| - 1];
      if last.Entry? && HashOf(last.event).Some? then HashOf(last.event).value
      else LastHash(lines[..|lines| - 1])
  }

  // ---- The chain, stated without a loop ----

  function PrevHashAt(events: seq<Event>, i: nat): string
    requires i <= |events|
  {
    if i == 0 then Genesis()
    else if HashOf(events[i - 1]).Some? then HashOf(events[i - 1]).value else ""
  }

  predicate LinkOk(d: Digest, prev: string, event: Event) {
    && Json.Get(event, PrevHash) == Some(JStr(prev))
    && HashOf(event) == Some(ComputeHash(d, prev, WithoutHash(event)))
  }

  predicate Linked(d: Digest, events: seq<Event>, i: nat)
    requires i < |events|
  {
    LinkOk(d, PrevHashAt(events, i), events[i])
  }

  // Every event names its predecessor's hash and carries the hash of its own content.
  predicate Intact(d: Digest, events: seq<Event>) {
    forall i | 0 <= i < |events| :: Linked(d, events, i)
  }

  // The chain head: what an off-host copy would record.
  function Head(events: seq<Event>): string {
    PrevHashAt(events, |events|)
  }

  datatype Verdict = Ok(count: nat) | BrokenAt(line: nat, count: nat)

  // break_line is the length of the shortest prefix that does not verify.
  ghost predicate Judges(d: Digest, events: seq<Event>, v: Verdict) {
    match v
    case Ok(count) => Intact(d, events) && count == |events|
    case BrokenAt(line, count) =>
      1 <= line <= |events| && Intact(d, events[..line - 1]) && !Intact(d, events[..line]) && count == |events|
  }

  // ---- Writing ----

  function Stamped(fields: Event, timestamp: real, iso: string): Event {
    map[Timestamp := JNum(timestamp), TimestampIso := JStr(iso)] + fields
  }

  function Sealed(d: Digest, prev: string, event: Event): Event {
    var linked := event[PrevHash := JStr(prev)];
    linked[Hash := JStr(ComputeHash(d, prev, linked))]
  }

  function Logged(d: Digest, lines: seq<Line>, fields: Event, timestamp: real, iso: string): seq<Line> {
    lines + [Entry(Sealed(d, LastHash(lines), Stamped(fields, timestamp, iso)))]
  }

  lemma IntactExtends(d: Digest, events: seq<Event>, event: Event)
    requires Intact(d, events)
    ensures Intact(d, events + [event]) <==> LinkOk(d, Head(events), event)
  {
    var more := events + [event];
    assert forall i | 0 <= i < |events| :: Linked(d, more, i) == Linked(d, events, i);
    assert Linked(d, more, |events|) == LinkOk(d, Head(events), event);
  }

  // verify_events_chain
  method VerifyEventsChain(d: Digest, events: seq<Event>) returns (v: Verdict)
    ensures Judges(d, events, v)
  {
    var expectedPrev := Genesis();
    for i := 0 to |events|
      invariant expectedPrev == PrevHashAt(events, i)
      invariant Intact(d, events[..i])
    {
      var event := events[i];
      assert Linked(d, events[..i + 1], i) == LinkOk(d, expectedPrev, event);
      if Json.Get(event, PrevHash) != Some(JStr(expectedPrev)) {
        return BrokenAt(i + 1, |events|);
      }
      var storedHash := HashOf(event);
      var recomputed := ComputeHash(d, expectedPrev, WithoutHash(event));
      if storedHash != Some(recomputed) {
        return BrokenAt(i + 1, |events|);
      }
      IntactExtends(d, events[..i], event);
      assert events[..i] + [event] == events[..i + 1];
      expectedPrev := recomputed;
    }
    assert events[..|events|] == events;
    return Ok(|events|);
  }

  // read_events, also used on backups
  method ReadEvents(lines: seq<Line>) returns (events: seq<Event>)
    ensures events == Events(lines)
  {
    events := [];
    for i := 0 to |lines|
      invariant events == Events(lines[..i])
    {
      assert lines[..i + 1][..i] == lines[..i];
      match lines[i] {
        case Blank =>
        case Garbled(_) =>
        case Entry(event) => events := events + [event];
      }
    }
    assert lines[..|lines|] == lines;
  }

  class Log {
    const digest: Digest
    var lines: seq<Line>

    constructor (digest: Digest)
      ensures this.digest == digest && lines == []
    {
      this.digest := digest;
      lines := [];
    }

    method ReadLastHash() returns (last: string)
      ensures last == LastHash(lines)
    {
      last := Genesis();
      for i := 0 to |lines|
        invariant last == LastHash(lines[..i])
      {
        assert lines[..i + 1][..i] == lines[..i];
        match lines[i] {
          case Blank =>
          case Garbled(_) =>
          case Entry(event) =>
            var stored := HashOf(event);
            if stored.Some? {
              last := stored.value;
            }
        }
      }
      assert lines[..|lines|] == lines;
    }

    method LogEvent(fields: Event, timestamp: real, iso: string)
      modifies this
      ensures lines == Logged(digest, old(lines), fields, timestamp, iso)
    {
      var event: Event := map[Timestamp := JNum(timestamp), TimestampIso := JStr(iso)];
      event := event + fields;
      var prev := ReadLastHash();
      event := event[PrevHash := JStr(prev)];
      event := event[Hash := JStr(ComputeHash(digest, prev, event))];
      lines := lines + [Entry(event)];
    }
  }

  // ---- Appending keeps the chain ----

  lemma IntactPrefix(d: Digest, events: seq<Event>, n: nat)
    requires n <= |events| && Intact(d, events)
    ensures Intact(d, events[..n])
  {
    assert forall i | 0 <= i < n :: Linked(d, events[..n], i) == Linked(d, events, i);
  }

  // The writer chains onto exactly the hash the verifier will expect: both skip the same lines.
  lemma {:induction false} WriterAgreesWithReader(d: Digest, lines: seq<Line>)
    requires Intact(d, Events(lines))
    ensures LastHash(lines) == Head(Events(lines))
  {
    if lines != [] {
      var n := |lines| - 1;
      var before, events := Events(lines[..n]), Events(lines);
      if lines[n].Entry? {
        assert Linked(d, events, |before|);
      } else {
        assert events == before;
        WriterAgreesWithReader(d, lines[..n]);
      }
    }
  }

  lemma LoggedEvents(d: Digest, lines: seq<Line>, fields: Event, timestamp: real, iso: string)
    ensures Events(Logged(d, lines, fields, timestamp, iso))
         == Events(lines) + [Sealed(d, LastHash(lines), Stamped(fields, timestamp, iso))]
  {
    var after := Logged(d, lines, fields, timestamp, iso);
    assert after[..|after| - 1] == lines;
  }

  // The line carries a hash, and no later one does.
  ghost predicate CarriesLastHash(lines: seq<Line>, i: int) {
    && 0 <= i < |lines| && lines[i].Entry? && HashOf(lines[i].event).Some?
    && forall j | i < j < |lines| && lines[j].Entry? :: HashOf(lines[j].event).None?
  }

  // What the writer chains onto, even in a file that does not verify.
  lemma {:induction false} LastHashIs(lines: seq<Line>)
    ensures forall i | CarriesLastHash(lines, i) :: Some(LastHash(lines)) == HashOf(lines[i].event)
    ensures (forall i | 0 <= i < |lines| && lines[i].Entry? :: HashOf(lines[i].event).None?) ==> LastHash(lines) == Genesis()
  {
    if lines != [] {
      var n := |lines| - 1;
      LastHashIs(lines[..n]);
      hide Genesis;
      forall i | CarriesLastHash(lines, i) ensures Some(LastHash(lines)) == HashOf(lines[i].event) {
        if i < n {
          assert CarriesLastHash(lines[..n], i);
        }
      }
    }
  }

  // The appended line names the hash before it, carries the hash of all its own other fields, and
  // shows the caller's fields -- also in place of the two time stamps -- and nothing else.
  lemma AppendedLine(d: Digest, lines: seq<Line>, fields: Event, timestamp: real, iso: string, key: EventKey)
    requires Hash !in fields
    ensures var after, n := Logged(d, lines, fields, timestamp, iso), |lines|;
            && |after| == n + 1 && after[..n] == lines && after[n].Entry?
            && var event := after[n].event;
            && Json.Get(event, PrevHash) == Some(JStr(LastHash(lines)))
            && (lines == [] ==> |LastHash(lines)| == 64 && forall i | 0 <= i < 64 :: LastHash(lines)[i] == '0')
            && Json.Get(event, Hash) == Some(JStr(d.sha(d.dumps(event - {Hash}) + LastHash(lines))))
            && (key != Hash && key != PrevHash ==>
                  Json.Get(event, key) ==
                    if key in fields then Some(fields[key])
                    else if key == Timestamp then Some(JNum(timestamp))
                    else if key == TimestampIso then Some(JStr(iso)) else None)
  {
    var linked := Stamped(fields, timestamp, iso)[PrevHash := JStr(LastHash(lines))];
    assert WithoutHash(Sealed(d, LastHash(lines), Stamped(fields, timestamp, iso))) == linked;
  }

  // What log_event appends extends the chain whenever the caller supplies no `hash` field.
  lemma AppendExtendsChain(d: Digest, lines: seq<Line>, fields: Event, timestamp: real, iso: string)
    requires Intact(d, Events(lines)) && Hash !in fields
    ensures Intact(d, Events(Logged(d, lines, fields, timestamp, iso)))
  {
    LoggedEvents(d, lines, fields, timestamp, iso);
    WriterAgreesWithReader(d, lines);
    var prev := LastHash(lines);
    var linked := Stamped(fields, timestamp, iso)[PrevHash := JStr(prev)];
    var sealed := Sealed(d, prev, Stamped(fields, timestamp, iso));
    IntactExtends(d, Events(lines), sealed);
    assert WithoutHash(sealed) == linked;
  }

  // Distinct texts in the set have distinct hashes, and none hashes to the genesis value.
  ghost predicate NoCollision(d: Digest, texts: set<string>) {
    && (forall x, y | x in texts && y in texts && d.sha(x) == d.sha(y) :: x == y)
    && (forall x | x in texts :: d.sha(x) != Genesis())
  }

  lemma PayloadInjective(d: Digest, prev: string, e: Event, prev': string, e': Event)
    requires WellFormed(d) && |prev| == |prev'|
    ensures Payload(d, prev, e) == Payload(d, prev', e') ==> prev == prev' && e == e'
  {
    var x, y := d.dumps(e), d.dumps(e');
    if x + prev == y + prev' {
      assert |x + prev| == |y + prev'|;
      assert x == (x + prev)[..|x|] && y == (y + prev')[..|y|];
      assert prev == (x + prev)[|x|..] && prev' == (y + prev')[|y|..];
    }
  }

  // Appending to an intact file keeps it intact exactly when the caller supplied no `hash` field
  // of its own, as long as the two texts hashed with and without it do not collide.
  lemma AppendKeepsChain(d: Digest, lines: seq<Line>, fields: Event, timestamp: real, iso: string)
    requires WellFormed(d) && Intact(d, Events(lines))
    requires var e, prev := Stamped(fields, timestamp, iso)[PrevHash := JStr(LastHash(lines))], LastHash(lines);
             NoCollision(d, {Payload(d, prev, e), Payload(d, prev, WithoutHash(e))})
    ensures Intact(d, Events(Logged(d, lines, fields, timestamp, iso))) <==> Hash !in fields
  {
    if Hash !in fields {
      AppendExtendsChain(d, lines, fields, timestamp, iso);
    } else {
      LoggedEvents(d, lines, fields, timestamp, iso);
      WriterAgreesWithReader(d, lines);
      var prev := LastHash(lines);
      var linked := Stamped(fields, timestamp, iso)[PrevHash := JStr(prev)];
      var sealed := Sealed(d, prev, Stamped(fields, timestamp, iso));
      IntactExtends(d, Events(lines), sealed);
      assert WithoutHash(sealed) == WithoutHash(linked);
      assert Hash in linked && Hash !in WithoutHash(linked);
      PayloadInjective(d, prev, linked, prev, WithoutHash(linked));
    }
  }

  // ---- Tamper evidence ----

  // The texts a verifier hashes.
  function Payloads(d: Digest, events: seq<Event>): set<string> {
    if events == [] then {}
    else
      var n := |events| - 1;
      Payloads(d, events[..n]) + {Payload(d, PrevHashAt(events, n), WithoutHash(events[n]))}
  }

  lemma PrevHashLength(d: Digest, events: seq<Event>, i: nat)
    requires WellFormed(d) && Intact(d, events) && i <= |events|
    ensures |PrevHashAt(events, i)| == HASH_LENGTH
  {
    if i > 0 {
      assert Linked(d, events, i - 1);
    }
  }

  // What verifying says about the last event: its hash is that of a text in the set.
  lemma LastLink(d: Digest, events: seq<Event>, texts: set<string>)
    requires WellFormed(d) && Intact(d, events) && events != []
    requires Payloads(d, events) <= texts
    ensures var n := |events| - 1;
            var text := Payload(d, PrevHashAt(events, n), WithoutHash(events[n]));
            && text in texts && HashOf(events[n]) == Some(d.sha(text)) && Head(events) == d.sha(text)
            && |PrevHashAt(events, n)| == HASH_LENGTH
  {
    var n := |events| - 1;
    assert Linked(d, events, n);
    PrevHashLength(d, events, n);
  }

  lemma SameEvent(e: Event, f: Event)
    requires WithoutHash(e) == WithoutHash(f)
    requires HashOf(e).Some? && HashOf(e) == HashOf(f)
    ensures e == f
  {
    assert e == WithoutHash(e)[Hash := e[Hash]];
    assert f == WithoutHash(f)[Hash := f[Hash]];
  }

  lemma SealedAlike(d: Digest, prev: string, e: Event, prev': string, e': Event, texts: set<string>)
    requires WellFormed(d) && NoCollision(d, texts) && |prev| == |prev'|
    requires Payload(d, prev, WithoutHash(e)) in texts && Payload(d, prev', WithoutHash(e')) in texts
    requires HashOf(e) == Some(ComputeHash(d, prev, WithoutHash(e)))
    requires HashOf(e') == Some(ComputeHash(d, prev', WithoutHash(e')))
    requires HashOf(e) == HashOf(e')
    ensures prev == prev' && e == e'
  {
    PayloadInjective(d, prev, WithoutHash(e), prev', WithoutHash(e'));
    SameEvent(e, e');
  }

  lemma LastEventsAgree(d: Digest, a: seq<Event>, b: seq<Event>, texts: set<string>)
    requires WellFormed(d) && NoCollision(d, texts)
    requires Payloads(d, a) <= texts && Payloads(d, b) <= texts
    requires Intact(d, a) && Intact(d, b) && Head(a) == Head(b)
    requires a != [] && b != []
    ensures a[|a| - 1] == b[|b| - 1] && PrevHashAt(a, |a| - 1) == PrevHashAt(b, |b| - 1)
  {
    LastLink(d, a, texts);
    LastLink(d, b, texts);
    SealedAlike(d, PrevHashAt(a, |a| - 1), a[|a| - 1], PrevHashAt(b, |b| - 1), b[|b| - 1], texts);
  }

  lemma ShorterLog(d: Digest, events: seq<Event>)
    requires Intact(d, events) && events != []
    ensures var n := |events| - 1;
            Intact(d, events[..n]) && Head(events[..n]) == PrevHashAt(events, n)
            && Payloads(d, events[..n]) <= Payloads(d, events)
  {
    var n := |events| - 1;
    IntactPrefix(d, events, n);
  }

  lemma PeelLast(d: Digest, a: seq<Event>, b: seq<Event>, texts: set<string>)
    requires WellFormed(d) && NoCollision(d, texts)
    requires Payloads(d, a) <= texts && Payloads(d, b) <= texts
    requires Intact(d, a) && Intact(d, b) && Head(a) == Head(b)
    requires a != [] && b != []
    ensures var a', b' := a[..|a| - 1], b[..|b| - 1];
            && Payloads(d, a') <= texts && Payloads(d, b') <= texts
            && Intact(d, a') && Intact(d, b') && Head(a') == Head(b')
            && a[|a| - 1] == b[|b| - 1]
  {
    LastEventsAgree(d, a, b, texts);
    ShorterLog(d, a);
    ShorterLog(d, b);
  }

  lemma Rejoin(a: seq<Event>, b: seq<Event>)
    requires a != [] && b != [] && a[..|a| - 1] == b[..|b| - 1] && a[|a| - 1] == b[|b| - 1]
    ensures a == b
  {
    assert a == a[..|a| - 1] + [a[|a| - 1]];
  }

  lemma {:induction false} SameLog(d: Digest, a: seq<Event>, b: seq<Event>, texts: set<string>)
    requires WellFormed(d) && NoCollision(d, texts)
    requires Payloads(d, a) <= texts && Payloads(d, b) <= texts
    requires Intact(d, a) && Intact(d, b) && Head(a) == Head(b)
    ensures a == b
    decreases |a|
  {
    if a != [] && b != [] {
      PeelLast(d, a, b, texts);
      SameLog(d, a[..|a| - 1], b[..|b| - 1], texts);
      Rejoin(a, b);
    } else if a != [] {
      LastLink(d, a, texts);
    } else if b != [] {
      LastLink(d, b, texts);
    }
  }

  // Two logs that verify and end in the same hash are the same log, field by field, as long as
  // SHA-256 does not collide on the texts those two logs hash.
  lemma TamperEvidence(d: Digest, a: seq<Event>, b: seq<Event>)
    requires WellFormed(d) && NoCollision(d, Payloads(d, a) + Payloads(d, b))
    requires Intact(d, a) && Intact(d, b) && Head(a) == Head(b)
    ensures a == b
  {
    SameLog(d, a, b, Payloads(d, a) + Payloads(d, b));
  }

  // ---- Break localisation ----

  // A resealed event has another hash, which its successor does not name.
  lemma SuccessorNoticesChange(d: Digest, log: seq<Event>, k: nat, changed: Event)
    requires WellFormed(d) && Intact(d, log) && k + 1 < |log| && changed != log[k]
    requires NoCollision(d, {Payload(d, PrevHashAt(log, k), WithoutHash(log[k])),
                             Payload(d, PrevHashAt(log, k), WithoutHash(changed))})
    ensures Linked(d, log[k := changed], k) ==> !Linked(d, log[k := changed], k + 1)
  {
    var bad, prev := log[k := changed], PrevHashAt(log, k);
    assert Linked(d, log, k) && Linked(d, log, k + 1);
    if Linked(d, bad, k) && HashOf(changed) == HashOf(log[k]) {
      PayloadInjective(d, prev, WithoutHash(log[k]), prev, WithoutHash(changed));
      SameEvent(log[k], changed);
    }
  }

  lemma VerdictIsBetween(d: Digest, events: seq<Event>, v: Verdict, intact: nat, broken: nat)
    requires intact <= broken < |events| && Intact(d, events[..intact]) && !Linked(d, events, broken)
    requires Judges(d, events, v)
    ensures v.BrokenAt? && intact < v.line <= broken + 1
  {
    assert forall n | broken < n <= |events| :: Linked(d, events[..n], broken) == Linked(d, events, broken);
    if v.BrokenAt? && v.line <= intact {
      assert events[..v.line] == events[..intact][..v.line];
      IntactPrefix(d, events[..intact], v.line);
    }
  }

  // If one event other than the last of a verified log is changed in any fields, its hash
  // included, the verifier reports that event's line or the next one.
  lemma BreakIsLocal(d: Digest, log: seq<Event>, k: nat, changed: Event, v: Verdict)
    requires WellFormed(d) && Intact(d, log) && k + 1 < |log| && changed != log[k]
    requires NoCollision(d, {Payload(d, PrevHashAt(log, k), WithoutHash(log[k])),
                             Payload(d, PrevHashAt(log, k), WithoutHash(changed))})
    requires Judges(d, log[k := changed], v)
    ensures v.BrokenAt? && v.line in {k + 1, k + 2}
  {
    var bad := log[k := changed];
    IntactPrefix(d, log, k);
    assert bad[..k] == log[..k];
    SuccessorNoticesChange(d, log, k, changed);
    VerdictIsBetween(d, bad, v, k, if Linked(d, bad, k) then k + 1 else k);
  }
}
