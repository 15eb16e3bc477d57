/**
 The audit hash chain of server/src/services/auditLog.ts: append, verify, purge.

 The keyed hash is free of collisions here: a digest is the term of what was hashed. Rows are kept in
 createdAt order, and the clock moves strictly forward between appends.
 */
module AuditChain {
  import opened Sums

  const CURRENT_VERSION: nat := 2

  const PURGE_ACTION: string := "AUDIT_LOG_PURGE"

  datatype Payload = Payload(actorType: string, actorId: string, action: string,
                             targetType: string, targetId: string, metadata: string, createdAt: int)

  datatype Digest = Genesis | Hash(prev: Digest, payload: Payload, version: nat)

  datatype Record = Record(id: nat, payload: Payload, prevHash: Digest, hash: Digest, version: nat)

  datatype Verdict = Intact | FaultAt(id: nat)

  predicate IsPurge(r: Record) {
    r.payload.action == PURGE_ACTION
  }

  // ---- verification ----

  predicate Faulty(log: seq<Record>, i: nat)
    requires i < |log|
  {
    || (i != 0 && !IsPurge(log[i]) && log[i].prevHash != log[i - 1].hash)
    || Hash(log[i].prevHash, log[i].payload, log[i].version) != log[i].hash
  }

  /** The verdict names the first faulty record. */
  function Verify(log: seq<Record>): Verdict {
    FirstFault(log, 0)
  }

  function FirstFault(log: seq<Record>, i: nat): (v: Verdict)
    requires i <= |log|
    ensures v == Intact <==> forall k | i <= k < |log| :: !Faulty(log, k)
    ensures v.FaultAt? ==> exists k | i <= k < |log| ::
              Faulty(log, k) && v.id == log[k].id && forall j | i <= j < k :: !Faulty(log, j)
    decreases |log| - i
  {
    if i == |log| then Intact
    else if Faulty(log, i) then FaultAt(log[i].id)
    else FirstFault(log, i + 1)
  }

  // ---- the log and every record it ever held ----

  /**
   `log` is the table. `hashes` and `parents` remember, for every record id ever appended, its hash
   and the id of the record it was chained on (-1 for the genesis value).
   */
  datatype History = History(log: seq<Record>, hashes: seq<Digest>, parents: seq<int>)

  const EMPTY: History := History([], [], [])

  function Append(h: History, payload: Payload, version: nat): History {
    var prev := if h.log == [] then Genesis else h.log[|h.log| - 1].hash;
    var parent := if h.log == [] then -1 else h.log[|h.log| - 1].id;
    var hash := Hash(prev, payload, version);
    History(h.log + [Record(|h.hashes|, payload, prev, hash, version)], h.hashes + [hash], h.parents + [parent])
  }

  predicate Kept(r: Record, cutoff: int) {
    IsPurge(r) || r.payload.createdAt >= cutoff
  }

  function Survivors(log: seq<Record>, cutoff: int): seq<Record> {
    Filter(log, (r: Record) => Kept(r, cutoff))
  }

  function Delete(h: History, cutoff: int): History {
    h.(log := Survivors(h.log, cutoff))
  }

  /** One append or one deletion: a purge is an append of a purge record, then a deletion, with other appends possibly between. */
  datatype Event = Appended(payload: Payload, version: nat) | Deleted(cutoff: int)

  predicate ClockAhead(h: History, now: int) {
    forall i | 0 <= i < |h.hashes| && h.hashes[i].Hash? :: h.hashes[i].payload.createdAt < now
  }

  predicate Enabled(h: History, e: Event) {
    e.Appended? ==> ClockAhead(h, e.payload.createdAt)
  }

  function Apply(h: History, e: Event): History {
    match e
    case Appended(payload, version) => Append(h, payload, version)
    case Deleted(cutoff) => Delete(h, cutoff)
  }

  predicate Runs(h: History, events: seq<Event>)
    decreases |events|
  {
    events == [] || (Enabled(h, events[0]) && Runs(Apply(h, events[0]), events[1..]))
  }

  function After(h: History, events: seq<Event>): History
    decreases |events|
  {
    if events == [] then h else After(Apply(h, events[0]), events[1..])
  }

  ghost predicate WellHashed(h: History, r: Record) {
    && r.id < |h.hashes| == |h.parents|
    && r.hash == h.hashes[r.id] == Hash(r.prevHash, r.payload, r.version)
    && -1 <= h.parents[r.id] < r.id
    && r.prevHash == if h.parents[r.id] == -1 then Genesis else h.hashes[h.parents[r.id]]
  }

  ghost predicate Valid(h: History) {
    && |h.hashes| == |h.parents|
    && (forall i | 0 <= i < |h.hashes| :: h.hashes[i].Hash?)
    && (forall i, j | 0 <= i < j < |h.hashes| :: h.hashes[i].payload.createdAt < h.hashes[j].payload.createdAt)
    && (forall i, j | 0 <= i < j < |h.log| :: h.log[i].id < h.log[j].id)
    && (forall i | 0 <= i < |h.log| :: WellHashed(h, h.log[i]))
  }

  lemma AppendValid(h: History, payload: Payload, version: nat)
    requires Valid(h) && ClockAhead(h, payload.createdAt)
    ensures Valid(Append(h, payload, version))
  {
    var g := Append(h, payload, version);
    forall i | 0 <= i < |g.log| ensures WellHashed(g, g.log[i]) {
      if i < |h.log| {
        assert WellHashed(h, h.log[i]);
      } else if h.log != [] {
        assert WellHashed(h, h.log[|h.log| - 1]);
      }
    }
    forall i, j | 0 <= i < j < |g.log| ensures g.log[i].id < g.log[j].id {
      assert WellHashed(h, h.log[i]);
    }
  }

  lemma {:induction false} FilterSorted(log: seq<Record>, p: Record -> bool)
    requires forall i, j | 0 <= i < j < |log| :: log[i].id < log[j].id
    ensures forall i, j | 0 <= i < j < |Filter(log, p)| :: Filter(log, p)[i].id < Filter(log, p)[j].id
    ensures forall i | 0 <= i < |Filter(log, p)| :: Filter(log, p)[i] in log
  {
    if log != [] {
      var front := log[..|log| - 1];
      FilterSorted(front, p);
      forall i | 0 <= i < |Filter(front, p)| ensures Filter(front, p)[i].id < log[|log| - 1].id {
        var k :| 0 <= k < |front| && front[k] == Filter(front, p)[i];
        assert log[k].id < log[|log| - 1].id;
      }
    }
  }

  lemma DeleteValid(h: History, cutoff: int)
    requires Valid(h)
    ensures Valid(Delete(h, cutoff))
  {
    FilterSorted(h.log, (r: Record) => Kept(r, cutoff));
    var g := Delete(h, cutoff);
    forall i | 0 <= i < |g.log| ensures WellHashed(g, g.log[i]) {
      assert g.log[i] in h.log;
      assert WellHashed(h, g.log[i]);
    }
  }

  /** Every run of appends and deletions, in any interleaving, keeps the history valid. */
  lemma {:induction false} RunsAreValid(h: History, events: seq<Event>)
    requires Valid(h) && Runs(h, events)
    ensures Valid(After(h, events))
    decreases |events|
  {
    if events != [] {
      match events[0] {
        case Appended(payload, version) => AppendValid(h, payload, version);
        case Deleted(cutoff) => DeleteValid(h, cutoff);
      }
      RunsAreValid(Apply(h, events[0]), events[1..]);
    }
  }

  // ---- what an append and a deletion leave in the table ----

  /** The new record holds what was recorded, under a new id, chained on the newest record; earlier ones are untouched. */
  lemma AppendRecords(h: History, payload: Payload, version: nat) returns (r: Record)
    requires Valid(h)
    ensures Append(h, payload, version).log == h.log + [r]
    ensures r.payload == payload && r.version == version && forall s | s in h.log :: s.id < r.id
    ensures r.prevHash == if h.log == [] then Genesis else h.log[|h.log| - 1].hash
    ensures r.hash == Hash(r.prevHash, payload, version)
  {
    var after := Append(h, payload, version);
    r := after.log[|h.log|];
    forall s | s in h.log ensures s.id < r.id {
      var i :| 0 <= i < |h.log| && h.log[i] == s;
      assert WellHashed(h, h.log[i]);
    }
  }

  /** Exactly the purge records and what is not older than the cutoff stay, in their order. */
  lemma DeleteExactly(h: History, cutoff: int)
    requires Valid(h)
    ensures forall r :: r in Delete(h, cutoff).log
              <==> r in h.log && (r.payload.action == "AUDIT_LOG_PURGE" || cutoff <= r.payload.createdAt)
    ensures forall i, j | 0 <= i < j < |Delete(h, cutoff).log| :: Delete(h, cutoff).log[i].id < Delete(h, cutoff).log[j].id
  {
    var keep := (r: Record) => Kept(r, cutoff);
    FilterSorted(h.log, keep);
    forall r ensures r in Filter(h.log, keep) <==> r in h.log && Kept(r, cutoff) {
      FilterMember(h.log, keep, r);
    }
  }

  // ---- exactly when verification passes ----

  /** Every surviving record but the first and the purge records still directly follows the record it was chained on. */
  ghost predicate Contiguous(h: History)
    requires Valid(h)
  {
    forall i | 0 < i < |h.log| && !IsPurge(h.log[i]) :: Follows(h, i)
  }

  ghost predicate Follows(h: History, i: nat)
    requires Valid(h) && 0 < i < |h.log|
  {
    assert WellHashed(h, h.log[i]);
    h.parents[h.log[i].id] == h.log[i - 1].id
  }

  lemma FaultyIffNotFollowing(h: History, i: nat)
    requires Valid(h) && i < |h.log|
    ensures Faulty(h.log, i) <==> i != 0 && !IsPurge(h.log[i]) && !Follows(h, i)
  {
    assert WellHashed(h, h.log[i]);
    if i != 0 {
      assert WellHashed(h, h.log[i - 1]);
      var parent, before := h.parents[h.log[i].id], h.log[i - 1].id;
      if parent != -1 && parent != before {
        assert h.hashes[parent].payload.createdAt != h.hashes[before].payload.createdAt;
      }
    }
  }

  lemma VerifyExactly(h: History)
    requires Valid(h)
    ensures Verify(h.log) == Intact <==> Contiguous(h)
  {
    forall i | 0 <= i < |h.log|
      ensures Faulty(h.log, i) <==> i != 0 && !IsPurge(h.log[i]) && !Follows(h, i)
    {
      FaultyIffNotFollowing(h, i);
    }
  }

  lemma AppendKeepsContiguous(h: History, payload: Payload, version: nat)
    requires Valid(h) && ClockAhead(h, payload.createdAt) && Contiguous(h)
    ensures Valid(Append(h, payload, version)) && Contiguous(Append(h, payload, version))
  {
    AppendValid(h, payload, version);
    var g := Append(h, payload, version);
    forall i | 0 < i < |g.log| && !IsPurge(g.log[i]) ensures Follows(g, i) {
      if i < |h.log| {
        assert Follows(h, i);
        assert WellHashed(h, h.log[i]);
      }
    }
  }

  // ---- what a deletion does to the chain ----

  predicate InTimeOrder(log: seq<Record>) {
    forall i, j | 0 <= i < j < |log| :: log[i].payload.createdAt < log[j].payload.createdAt
  }

  lemma ValidInTimeOrder(h: History)
    requires Valid(h)
    ensures InTimeOrder(h.log)
  {
    forall i, j | 0 <= i < j < |h.log| ensures h.log[i].payload.createdAt < h.log[j].payload.createdAt {
      assert WellHashed(h, h.log[i]) && WellHashed(h, h.log[j]);
    }
  }

  /** How many records are older than the cutoff. */
  function Older(log: seq<Record>, cutoff: int): (m: nat)
    ensures m <= |log|
    ensures InTimeOrder(log) ==> forall i | 0 <= i < m :: log[i].payload.createdAt < cutoff
    ensures m < |log| ==> log[m].payload.createdAt >= cutoff
  {
    if log == [] || log[0].payload.createdAt >= cutoff then 0
    else
      assert InTimeOrder(log) ==> InTimeOrder(log[1..]);
      1 + Older(log[1..], cutoff)
  }

  function Purges(log: seq<Record>): seq<Record> {
    Filter(log, IsPurge)
  }

  /** The survivors: of the older part only the purge records, then the newer part untouched. */
  lemma SurvivorsShape(log: seq<Record>, cutoff: int)
    requires InTimeOrder(log)
    ensures var m := Older(log, cutoff); Survivors(log, cutoff) == Purges(log[..m]) + log[m..]
  {
    var m := Older(log, cutoff);
    var keep := (r: Record) => Kept(r, cutoff);
    var older, newer := log[..m], log[m..];
    assert log == older + newer;
    FilterConcat(older, newer, keep);
    assert Filter(older, keep) == Purges(older) by {
      OlderPart(log, cutoff);
      FilterCong(older, keep, IsPurge);
    }
    assert Filter(newer, keep) == newer by {
      NewerPart(log, cutoff);
      FilterAll(newer, keep);
    }
  }

  lemma OlderPart(log: seq<Record>, cutoff: int)
    requires InTimeOrder(log)
    ensures forall r | r in log[..Older(log, cutoff)] :: Kept(r, cutoff) == IsPurge(r)
  {
  }

  lemma NewerPart(log: seq<Record>, cutoff: int)
    requires InTimeOrder(log)
    ensures forall r | r in log[Older(log, cutoff)..] :: Kept(r, cutoff)
  {
    var m := Older(log, cutoff);
    forall r | r in log[m..] ensures Kept(r, cutoff) {
      var i :| m <= i < |log| && log[i] == r;
      assert m == i || log[m].payload.createdAt < log[i].payload.createdAt;
    }
  }

  /**
   The deletions that break the chain: the cut falls between two adjacent ordinary records, and a
   purge record survives in front of it.
   */
  predicate Severs(log: seq<Record>, cutoff: int) {
    var m := Older(log, cutoff);
    && 0 < m < |log|
    && !IsPurge(log[m - 1]) && !IsPurge(log[m])
    && exists i | 0 <= i < m :: IsPurge(log[i])
  }

  lemma SeversShape(log: seq<Record>, cutoff: int)
    ensures var m := Older(log, cutoff);
            Severs(log, cutoff)
            <==> 0 < m < |log| && !IsPurge(log[m - 1]) && !IsPurge(log[m]) && Purges(log[..m]) != []
  {
    var m := Older(log, cutoff);
    PurgesArePurges(log[..m]);
    assert forall i | 0 <= i < m :: log[..m][i] == log[i];
  }

  /** A deletion keeps an intact chain intact exactly when it does not sever it. */
  lemma DeleteKeepsContiguous(h: History, cutoff: int)
    requires Valid(h) && Contiguous(h)
    ensures Valid(Delete(h, cutoff))
    ensures Contiguous(Delete(h, cutoff)) <==> !Severs(h.log, cutoff)
  {
    DeleteValid(h, cutoff);
    ValidInTimeOrder(h);
    SurvivorsShape(h.log, cutoff);
    var g, m := Delete(h, cutoff), Older(h.log, cutoff);
    var kept := Purges(h.log[..m]);
    PurgesArePurges(h.log[..m]);
    SeversShape(h.log, cutoff);
    ContiguousAtBoundary(h, g, m, kept);
    if kept != [] && m < |h.log| && !IsPurge(h.log[m]) {
      BoundaryFollows(h, g, m, kept);
    }
  }

  /** Only the first newer record can have lost its predecessor. */
  lemma ContiguousAtBoundary(h: History, g: History, m: nat, kept: seq<Record>)
    requires Valid(h) && Contiguous(h) && Valid(g) && m <= |h.log|
    requires g == h.(log := kept + h.log[m..])
    requires forall i | 0 <= i < |kept| :: IsPurge(kept[i])
    ensures Contiguous(g) <==> kept == [] || m == |h.log| || IsPurge(h.log[m]) || Follows(g, |kept|)
  {
    forall i | |kept| < i < |g.log| && !IsPurge(g.log[i]) ensures Follows(g, i) {
      NewerFollows(h, g, m, kept, i);
    }
    assert forall i | 0 <= i < |kept| :: g.log[i] == kept[i];
    assert m < |h.log| ==> g.log[|kept|] == h.log[m];
  }

  /** Behind the cut nothing changed: records there still follow their predecessors. */
  lemma NewerFollows(h: History, g: History, m: nat, kept: seq<Record>, i: nat)
    requires Valid(h) && Contiguous(h) && Valid(g) && m <= |h.log|
    requires g == h.(log := kept + h.log[m..])
    requires |kept| < i < |g.log| && !IsPurge(g.log[i])
    ensures Follows(g, i)
  {
    var k := m + i - |kept|;
    assert g.log[i] == h.log[k] && g.log[i - 1] == h.log[k - 1];
    assert Follows(h, k);
  }

  /** At the cut, the first newer ordinary record follows the last kept purge record iff that one was right before it. */
  lemma BoundaryFollows(h: History, g: History, m: nat, kept: seq<Record>)
    requires Valid(h) && Contiguous(h) && Valid(g) && 0 < m < |h.log|
    requires g == h.(log := kept + h.log[m..]) && kept == Purges(h.log[..m]) != []
    requires !IsPurge(h.log[m])
    ensures Follows(g, |kept|) <==> IsPurge(h.log[m - 1])
  {
    BoundaryIds(h, g, m, kept);
    LastPurge(h.log, m);
  }

  lemma BoundaryIds(h: History, g: History, m: nat, kept: seq<Record>)
    requires Valid(h) && Contiguous(h) && Valid(g) && 0 < m < |h.log|
    requires g == h.(log := kept + h.log[m..]) && kept != [] && !IsPurge(h.log[m])
    ensures Follows(g, |kept|) <==> h.log[m - 1].id == kept[|kept| - 1].id
  {
    assert g.log[|kept|] == h.log[m] && g.log[|kept| - 1] == kept[|kept| - 1];
    assert Follows(h, m);
  }

  /** The last purge record before position `m` is the record right before it, or an older one. */
  lemma LastPurge(log: seq<Record>, m: nat)
    requires 0 < m <= |log| && Purges(log[..m]) != []
    requires forall i, j | 0 <= i < j < |log| :: log[i].id < log[j].id
    ensures var p := Purges(log[..m])[|Purges(log[..m])| - 1];
            p.id == log[m - 1].id <==> IsPurge(log[m - 1])
  {
    PurgesArePurges(log[..m]);
    assert log[..m][m - 1] == log[m - 1];
    var p := Purges(log[..m])[|Purges(log[..m])| - 1];
    assert IsPurge(p) && p in log[..m];
    var i :| 0 <= i < m && log[i] == p;
    assert i != m - 1 ==> log[i].id < log[m - 1].id;
  }

  lemma {:induction false} PurgesArePurges(log: seq<Record>)
    ensures forall i | 0 <= i < |Purges(log)| :: IsPurge(Purges(log)[i]) && Purges(log)[i] in log
    ensures Purges(log) == [] <==> forall i | 0 <= i < |log| :: !IsPurge(log[i])
    ensures log != [] && IsPurge(log[|log| - 1]) ==>
              Purges(log) != [] && Purges(log)[|Purges(log)| - 1] == log[|log| - 1]
  {
    if log != [] {
      PurgesArePurges(log[..|log| - 1]);
    }
  }

  // ---- the runs the documentation speaks of ----

  /** A whole purge without anything in between. */
  function PurgeBefore(h: History, cutoff: int, note: Payload): History {
    Delete(Append(h, note, CURRENT_VERSION), cutoff)
  }

  /** The purge's own record stays, behind whatever else does. */
  lemma PurgeIsRecorded(h: History, cutoff: int, note: Payload)
    requires note.action == PURGE_ACTION
    ensures var log := PurgeBefore(h, cutoff, note).log;
            log != [] && log[|log| - 1].payload == note && log[..|log| - 1] == Survivors(h.log, cutoff)
  {
    var appended := Append(h, note, CURRENT_VERSION);
    assert appended.log[..|appended.log| - 1] == h.log;
  }

  /** A purge keeps an intact chain intact iff the cut, made after the purge record is appended, does not sever it. */
  lemma PurgeExactly(h: History, cutoff: int, note: Payload)
    requires Valid(h) && Contiguous(h) && note.action == PURGE_ACTION && ClockAhead(h, note.createdAt)
    ensures Valid(PurgeBefore(h, cutoff, note))
    ensures Verify(PurgeBefore(h, cutoff, note).log) == Intact <==> !Severs(Append(h, note, CURRENT_VERSION).log, cutoff)
  {
    AppendKeepsContiguous(h, note, CURRENT_VERSION);
    DeleteKeepsContiguous(Append(h, note, CURRENT_VERSION), cutoff);
    VerifyExactly(PurgeBefore(h, cutoff, note));
  }

  /** The first purge is safe at any cutoff; a later one is safe if it removes every ordinary record. */
  lemma SafePurges(h: History, cutoff: int, note: Payload)
    requires Valid(h) && Contiguous(h) && note.action == PURGE_ACTION && ClockAhead(h, note.createdAt)
    requires (forall i | 0 <= i < |h.log| :: !IsPurge(h.log[i]))
          || (forall i | 0 <= i < |h.log| && !IsPurge(h.log[i]) :: h.log[i].payload.createdAt < cutoff)
    ensures Valid(PurgeBefore(h, cutoff, note))
    ensures Verify(PurgeBefore(h, cutoff, note).log) == Intact
  {
    PurgeExactly(h, cutoff, note);
  }

  /** Any run of appends alone verifies. */
  lemma {:induction false} AppendsVerify(h: History, events: seq<Event>)
    requires Valid(h) && Contiguous(h) && Runs(h, events)
    requires forall i | 0 <= i < |events| :: events[i].Appended?
    ensures Valid(After(h, events)) && Verify(After(h, events).log) == Intact
    decreases |events|
  {
    if events == [] {
      VerifyExactly(h);
    } else {
      AppendKeepsContiguous(h, events[0].payload, events[0].version);
      AppendsVerify(Apply(h, events[0]), events[1..]);
    }
  }

  function Entry(action: string, at: int): Payload {
    Payload("STAFF", "", action, "", "", "", at)
  }

  /** A purge record, two ordinary entries, and the record of a second purge. */
  const FOUR_ENTRIES: seq<Event> :=
    [Appended(Entry(PURGE_ACTION, 1), 2), Appended(Entry("ORDER_CREATED", 2), 2),
     Appended(Entry("ORDER_CREATED", 3), 2), Appended(Entry(PURGE_ACTION, 4), 2)]

  lemma FourEntries()
    ensures Runs(EMPTY, FOUR_ENTRIES)
    ensures var log := After(EMPTY, FOUR_ENTRIES).log;
            && |log| == 4
            && (forall i | 0 <= i < 4 :: log[i].id == i && log[i].payload == FOUR_ENTRIES[i].payload)
  {
    var e := FOUR_ENTRIES;
    assert e[3..] == [e[3]] && e[2..] == [e[2]] + e[3..] && e[1..] == [e[1]] + e[2..] && e == [e[0]] + e[1..];
    RunOne(EMPTY, e[0], e[1..]);
    var h1 := Apply(EMPTY, e[0]);
    RunOne(h1, e[1], e[2..]);
    var h2 := Apply(h1, e[1]);
    RunOne(h2, e[2], e[3..]);
    var h3 := Apply(h2, e[2]);
    RunOne(h3, e[3], []);
    assert [e[3]] + [] == e[3..];
  }

  lemma RunOne(h: History, e: Event, rest: seq<Event>)
    ensures Runs(h, [e] + rest) <==> Enabled(h, e) && Runs(Apply(h, e), rest)
    ensures After(h, [e] + rest) == After(Apply(h, e), rest)
  {
    assert ([e] + rest)[1..] == rest;
  }

  /**
   The documented exemptions are not wide enough: once a purge record is in the log, a second purge
   that removes only the older of two later entries makes an untouched log fail verification.
   */
  lemma SecondPurgeIsReported()
    ensures Runs(EMPTY, FOUR_ENTRIES)
    ensures Verify(Delete(After(EMPTY, FOUR_ENTRIES), 3).log) == FaultAt(2)
  {
    FourEntries();
    var h := After(EMPTY, FOUR_ENTRIES);
    var log := h.log;
    AppendsVerify(EMPTY, FOUR_ENTRIES);
    RunsAreValid(EMPTY, FOUR_ENTRIES);
    ValidInTimeOrder(h);
    assert log[1..][1..] == log[2..];
    assert Older(log[2..], 3) == 0;
    assert Older(log[1..], 3) == 1;
    assert Older(log, 3) == 2;
    TwoOfFour(log);
    assert !Faulty(log, 2);
    WithoutSecond(h);
  }

  /** Four records, the first a purge: without the second the third is the first fault. */
  lemma WithoutSecond(h: History)
    requires Valid(h) && |h.log| == 4 && !IsPurge(h.log[2]) && !Faulty(h.log, 2)
    requires Delete(h, 3).log == [h.log[0], h.log[2], h.log[3]]
    ensures Verify(Delete(h, 3).log) == FaultAt(h.log[2].id)
  {
    DeleteValid(h, 3);
    FaultyIffNotFollowing(Delete(h, 3), 0);
    FaultyIffNotFollowing(Delete(h, 3), 1);
    FaultyIffNotFollowing(h, 2);
  }

  lemma TwoOfFour(log: seq<Record>)
    requires |log| == 4 && InTimeOrder(log) && Older(log, 3) == 2
    requires IsPurge(log[0]) && !IsPurge(log[1])
    ensures Survivors(log, 3) == [log[0], log[2], log[3]]
  {
    SurvivorsShape(log, 3);
    assert log[..2] == [log[0]] + [log[1]];
    FilterConcat([log[0]], [log[1]], IsPurge);
    FilterAll([log[0]], IsPurge);
    FilterNone([log[1]], IsPurge);
  }

  // ---- tampering ----

  /** Changing a hashed field, or the stored link, of any record without recomputing its hash is always reported. */
  lemma EditIsReported(log: seq<Record>, k: nat, payload: Payload, prevHash: Digest, version: nat)
    requires k < |log| && Verify(log) == Intact
    requires payload != log[k].payload || prevHash != log[k].prevHash || version != log[k].version
    ensures Verify(log[k := log[k].(payload := payload, prevHash := prevHash, version := version)]).FaultAt?
  {
    var edited := log[k := log[k].(payload := payload, prevHash := prevHash, version := version)];
    assert !Faulty(log, k);
    assert Faulty(edited, k);
  }

  /** Changing an ordinary payload and its hash with the key is reported exactly when an ordinary record follows. */
  lemma RehashedEdit(log: seq<Record>, k: nat, payload: Payload)
    requires k < |log| && Verify(log) == Intact
    requires payload != log[k].payload && (payload.action == PURGE_ACTION <==> IsPurge(log[k]))
    ensures var edited := log[k := log[k].(payload := payload, hash := Hash(log[k].prevHash, payload, log[k].version))];
            Verify(edited) == Intact <==> k == |log| - 1 || IsPurge(log[k + 1])
  {
    var edited := log[k := log[k].(payload := payload, hash := Hash(log[k].prevHash, payload, log[k].version))];
    forall i | 0 <= i < |log|
      ensures Faulty(edited, i) <==> i == k + 1 && !IsPurge(log[i])
    {
      assert !Faulty(log, i);
      if i == k + 1 {
        assert !Faulty(log, k);
      }
    }
  }

  // ---- the service ----

  class AuditLog {
    var rows: seq<Record>
    var issued: nat
    ghost var history: History

    ghost predicate Ready()
      reads this
    {
      Valid(history) && history.log == rows && issued == |history.hashes|
    }

    constructor ()
      ensures Ready() && history == EMPTY
    {
      rows, issued, history := [], 0, EMPTY;
    }

    /** Append, chained on the newest row. */
    method RecordEntry(payload: Payload)
      requires Ready() && ClockAhead(history, payload.createdAt)
      modifies this
      ensures Ready() && history == Append(old(history), payload, CURRENT_VERSION)
    {
      AppendValid(history, payload, CURRENT_VERSION);
      history := Append(history, payload, CURRENT_VERSION);
      var prevHash := Genesis;
      if |rows| > 0 {
        prevHash := rows[|rows| - 1].hash;
      }
      var hash := Hash(prevHash, payload, CURRENT_VERSION);
      rows := rows + [Record(issued, payload, prevHash, hash, CURRENT_VERSION)];
      issued := issued + 1;
    }

    method VerifyChain() returns (v: Verdict)
      ensures v == Verify(rows)
    {
      for i := 0 to |rows|
        invariant Verify(rows) == FirstFault(rows, i)
      {
        var row := rows[i];
        var isChainEntryPoint := i == 0 || IsPurge(row);
        if !isChainEntryPoint {
          var expectedPrev := rows[i - 1].hash;
          if row.prevHash != expectedPrev {
            return FaultAt(row.id);
          }
        }
        var recomputed := Hash(row.prevHash, row.payload, row.version);
        if recomputed != row.hash {
          return FaultAt(row.id);
        }
      }
      v := Intact;
    }

    /** The deletion, a step of its own: entries may be appended between the purge record and it. */
    method DeleteBefore(cutoff: int)
      requires Ready()
      modifies this
      ensures Ready() && history == Delete(old(history), cutoff)
    {
      DeleteValid(history, cutoff);
      history := Delete(history, cutoff);
      var kept := [];
      for i := 0 to |rows|
        invariant kept == Survivors(rows[..i], cutoff)
      {
        assert rows[..i + 1][..i] == rows[..i];
        if Kept(rows[i], cutoff) {
          kept := kept + [rows[i]];
        }
      }
      assert rows[..|rows|] == rows;
      rows := kept;
    }

    method Purge(cutoff: int, note: Payload) returns (deletedCount: int)
      requires Ready() && ClockAhead(history, note.createdAt) && note.action == PURGE_ACTION
      modifies this
      ensures Ready() && history == PurgeBefore(old(history), cutoff, note)
      ensures deletedCount == |old(rows)| - |Survivors(old(rows), cutoff)|
    {
      deletedCount := 0;
      for i := 0 to |rows|
        invariant deletedCount == i - |Survivors(rows[..i], cutoff)|
      {
        assert rows[..i + 1][..i] == rows[..i];
        if !Kept(rows[i], cutoff) {
          deletedCount := deletedCount + 1;
        }
      }
      assert rows[..|rows|] == rows;
      RecordEntry(note);
      DeleteBefore(cutoff);
    }
  }
}
