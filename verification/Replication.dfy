/** Delta replication: rows stamped as they are written, a log of what was deleted, and a client
    that reads once and from then on asks what has changed since its token. */
module Replication {
  import opened Common
  import opened Timestamps

  datatype Row = Row(value: string, stamp: Instant)

  datatype Gone = Gone(key: string, at: Instant)

  /** One entity set, its part of the deletion log, and the clock. */
  datatype Server = Server(table: map<string, Row>, log: seq<Gone>, clock: Instant)

  // ----- writing -----

  /** A change stamp strictly after the row's last one, and never behind now; None where that
      would lie beyond the last year there is. */
  function Advance(previous: Instant, now: Instant): (r: Option<Instant>)
    ensures r.Some? ==> previous < r.value && now <= r.value && (r.value == now || r.value <= previous + 1000)
    ensures r.None? <==> now <= previous && LAST_DAY * DAY <= previous + 1000
  {
    if previous < now then Some(now)
    else if previous + 1000 < LAST_DAY * DAY then Some(previous + 1000)
    else None
  }

  function Insert(s: Server, key: string, value: string): Server {
    if key in s.table then s else s.(table := s.table[key := Row(value, Trunc(s.clock))])
  }

  function Update(s: Server, key: string, value: string): Server {
    if key !in s.table then s
    else match Advance(s.table[key].stamp, Trunc(s.clock))
      case Some(stamp) => s.(table := s.table[key := Row(value, stamp)])
      case None => s
  }

  function Delete(s: Server, key: string): Server {
    if key !in s.table then s
    else s.(table := s.table - {key}, log := s.log + [Gone(key, Trunc(s.clock))])
  }

  // ----- reading -----

  function Changed(s: Server, since: Instant): map<string, Row> {
    map key | key in s.table && since <= s.table[key].stamp :: s.table[key]
  }

  function DeletionsSince(log: seq<Gone>, since: Instant): seq<string> {
    Map(Filter(log, (g: Gone) => since <= g.at), (g: Gone) => g.key)
  }

  /** What the client holds, and the moment its token stands for. */
  datatype Client = Client(rows: map<string, Row>, token: Option<Instant>)

  /** The changes first, then the removals. */
  function Applied(rows: map<string, Row>, changed: map<string, Row>, removed: seq<string>): map<string, Row> {
    (rows + changed) - (set key | key in removed)
  }

  /** Steps one after another: `asked` is the moment taken for a read whose query is still to come. */
  datatype System = System(server: Server, client: Client, asked: Option<Instant>)

  datatype Step =
    | Tick(to: Instant)
    | Create(key: string, value: string)
    | Change(key: string, value: string)
    | Remove(key: string)
    | Ask
    | Answer

  /** The new token is the moment taken before the query, down to the millisecond. */
  function AnswerRead(s: System): System
    requires s.asked.Some?
  {
    var link := Some(Trunc(s.asked.value));
    match s.client.token
    case None => s.(client := Client(s.server.table, link), asked := None)
    case Some(since) =>
      var rows := Applied(s.client.rows, Changed(s.server, since), DeletionsSince(s.server.log, since));
      s.(client := Client(rows, link), asked := None)
  }

  function Do(s: System, step: Step): System {
    match step
    case Tick(to) => if s.server.clock <= to then s.(server := s.server.(clock := to)) else s
    case Create(key, value) => s.(server := Insert(s.server, key, value))
    case Change(key, value) => s.(server := Update(s.server, key, value))
    case Remove(key) => s.(server := Delete(s.server, key))
    case Ask => if s.asked.None? then s.(asked := Some(s.server.clock)) else s
    case Answer => if s.asked.Some? then AnswerRead(s) else s
  }

  function Run(s: System, steps: seq<Step>): System {
    if |steps| == 0 then s else Do(Run(s, steps[..|steps| - 1]), steps[|steps| - 1])
  }

  // ----- the service's tables, changed in place -----

  /** What the service compares is the text of the stamps. */
  predicate TextBefore(a: Instant, b: Instant) {
    Less(Iso(a), Iso(b))
  }

  lemma {:induction false} TextIsTime(a: Instant, b: Instant)
    ensures TextBefore(a, b) <==> a < b
  {
    IsoOrder(a, b);
  }

  function TextChanged(rows: map<string, Row>, since: Instant): map<string, Row> {
    map key | key in rows && !TextBefore(rows[key].stamp, since) :: rows[key]
  }

  lemma {:induction false} TextChangedAt(rows: map<string, Row>, since: Instant, key: string)
    ensures key in TextChanged(rows, since) <==> key in rows && since <= rows[key].stamp
    ensures key in TextChanged(rows, since) ==> TextChanged(rows, since)[key] == rows[key]
  {
    if key in rows {
      TextIsTime(rows[key].stamp, since);
    }
  }

  /** Compared as text, the rows changed at or after a moment are the rows stamped then or later. */
  lemma {:induction false} TextChangedIs(s: Server, since: Instant)
    ensures TextChanged(s.table, since) == Changed(s, since)
  {
    var a, b := TextChanged(s.table, since), Changed(s, since);
    forall key ensures key in a <==> key in b
      ensures key in a ==> a[key] == b[key]
    {
      TextChangedAt(s.table, since, key);
    }
  }

  /** As it is worked out, on the texts. */
  method AdvanceText(previous: Instant, now: Instant) returns (stamp: Option<Instant>)
    ensures stamp == Advance(previous, now)
  {
    TextIsTime(previous, now);
    if TextBefore(previous, now) {
      return Some(now);
    }
    if previous + 1000 < LAST_DAY * DAY {
      return Some(previous + 1000);
    }
    return None;
  }

  class EntitySet {
    var table: map<string, Row>
    var log: seq<Gone>
    var clock: Instant

    ghost function Contents(): Server
      reads this
    {
      Server(table, log, clock)
    }

    constructor (clock: Instant)
      ensures Contents() == Server(map[], [], clock)
    {
      table, log := map[], [];
      this.clock := clock;
    }

    method InsertRow(key: string, value: string) returns (done: bool)
      modifies this
      ensures Contents() == Insert(old(Contents()), key, value) && (done <==> key !in old(table))
      ensures table == (if done then old(table)[key := Row(value, Trunc(clock))] else old(table))
      ensures log == old(log) && clock == old(clock)
    {
      if key in table {
        return false;
      }
      table := table[key := Row(value, Trunc(clock))];
      return true;
    }

    method UpdateRow(key: string, value: string) returns (done: bool)
      modifies this
      ensures Contents() == Update(old(Contents()), key, value)
      ensures done ==> key in old(table) && table == old(table)[key := Row(value, table[key].stamp)]
                       && old(table)[key].stamp < table[key].stamp && Trunc(clock) <= table[key].stamp
      ensures !done ==> table == old(table)
      ensures log == old(log) && clock == old(clock)
    {
      if key !in table {
        return false;
      }
      var stamp := AdvanceText(table[key].stamp, Trunc(clock));
      if stamp.None? {
        return false;
      }
      table := table[key := Row(value, stamp.value)];
      return true;
    }

    method DeleteRow(key: string) returns (done: bool)
      modifies this
      ensures Contents() == Delete(old(Contents()), key) && (done <==> key in old(table))
      ensures table == old(table) - {key} && clock == old(clock)
      ensures log == if done then old(log) + [Gone(key, Trunc(clock))] else old(log)
    {
      if key !in table {
        return false;
      }
      RecordDeletion(key);
      table := table - {key};
      return true;
    }

    method RecordDeletion(key: string)
      modifies this`log
      ensures log == old(log) + [Gone(key, Trunc(clock))]
    {
      log := log + [Gone(key, Trunc(clock))];
    }

    method DeletedSince(since: Instant) returns (removed: seq<string>)
      ensures removed == DeletionsSince(log, since)
    {
      removed := [];
      ghost var recent := (g: Gone) => since <= g.at;
      for i := 0 to |log|
        invariant removed == DeletionsSince(log[..i], since)
      {
        assert log[..i + 1] == log[..i] + [log[i]];
        FilterSnoc(log[..i], log[i], recent);
        TextIsTime(log[i].at, since);
        if !TextBefore(log[i].at, since) {
          removed := removed + [log[i].key];
        }
      }
      assert log[..|log|] == log;
    }

    method ChangedSince(since: Instant) returns (changed: map<string, Row>)
      ensures changed == Changed(Contents(), since)
    {
      changed := TextChanged(table, since);
      TextChangedIs(Contents(), since);
    }

    /** A delta read. The token says since when; the link it answers with reads back as the moment
        taken before the query. */
    method ReadDelta(token: string, moment: Instant)
      returns (changed: map<string, Row>, removed: seq<string>, link: Option<string>)
      ensures match SinceOf(token)
              case None => link == None
              case Some(since) => changed == Changed(Contents(), since) && removed == DeletionsSince(log, since)
                                  && link.Some? && SinceOf(link.value) == Some(Trunc(moment))
                                  && DeltaSince(Contents(), since, changed, removed)
    {
      var since := SinceOf(token);
      if since.None? {
        return map[], [], None;
      }
      changed := ChangedSince(since.value);
      removed := DeletedSince(since.value);
      DeltaIs(Contents(), since.value);
      LinkReads(moment);
      link := Some(Mint(moment));
    }
  }

  /** The rows stamped at that moment or later, and every key deleted at it or later. */
  ghost predicate DeltaSince(s: Server, since: Instant, changed: map<string, Row>, removed: seq<string>) {
    && (forall key :: key in changed <==> key in s.table && since <= s.table[key].stamp)
    && (forall key :: key in changed ==> changed[key] == s.table[key])
    && forall key :: key in removed <==> exists i :: 0 <= i < |s.log| && s.log[i].key == key && since <= s.log[i].at
  }

  lemma {:induction false} DeltaIs(s: Server, since: Instant)
    ensures DeltaSince(s, since, Changed(s, since), DeletionsSince(s.log, since))
  {
    forall key ensures key in DeletionsSince(s.log, since)
                  <==> exists i :: 0 <= i < |s.log| && s.log[i].key == key && since <= s.log[i].at
    {
      DeletionsAre(s.log, since, key);
    }
  }

  /** The moment a token stands for: None for one this system did not issue. */
  function SinceOf(token: string): Option<Instant> {
    match Read(token)
    case Some(t) => if 0 <= t < LAST_DAY * DAY then Some(t) else None
    case None => None
  }

  lemma {:induction false} LinkReads(moment: Instant)
    ensures SinceOf(Mint(moment)) == Some(Trunc(moment))
  {
    TokenRoundTrip(moment);
    assert ReadBack(Mint(moment)).0 == Read(Mint(moment));
  }

  // ----- what the client's rows are worth -----

  ghost predicate LoggedSince(log: seq<Gone>, key: string, since: Instant) {
    exists i :: 0 <= i < |log| && log[i].key == key && since <= log[i].at
  }

  ghost predicate UpToDate(s: Server, rows: map<string, Row>, since: Instant, key: string) {
    && (key in s.table && s.table[key].stamp < since ==> key in rows && rows[key] == s.table[key])
    && (key in rows && key !in s.table ==> LoggedSince(s.log, key, since))
  }

  /** Against a token at `since`: a row not stamped since then is held as it is, and a row held
      that is gone was logged as deleted since then. Nothing was minted in the future. */
  ghost predicate InStep(s: System, since: Instant) {
    && since <= s.server.clock && since % 1000 == 0
    && s.client.token == Some(since)
    && (s.asked.Some? ==> s.asked.value <= s.server.clock)
    && forall key :: UpToDate(s.server, s.client.rows, since, key)
  }

  ghost predicate Started(s: System) {
    s.client.token.None? && (s.asked.Some? ==> s.asked.value <= s.server.clock)
  }

  /** No row in the table has a deletion of its key logged since. */
  ghost predicate NoneRecreated(s: Server, since: Instant) {
    forall key :: key in s.table ==> !LoggedSince(s.log, key, since)
  }

  lemma {:induction false} DeletionsAre(log: seq<Gone>, since: Instant, key: string)
    ensures key in DeletionsSince(log, since) <==> LoggedSince(log, key, since)
  {
    var recent := (g: Gone) => since <= g.at;
    var kept := Filter(log, recent);
    FilterMembers(log, recent);
    if key in DeletionsSince(log, since) {
      var k :| 0 <= k < |kept| && kept[k].key == key;
      var i :| 0 <= i < |log| && log[i] == kept[k];
    }
    if LoggedSince(log, key, since) {
      var i :| 0 <= i < |log| && log[i].key == key && since <= log[i].at;
      assert log[i] in kept;
      var k :| 0 <= k < |kept| && kept[k] == log[i];
      assert DeletionsSince(log, since)[k] == key;
    }
  }

  /** Which row a key has after the changes and removals are applied. */
  lemma {:induction false} AppliedAt(s: Server, rows: map<string, Row>, since: Instant, key: string)
    ensures var after := Applied(rows, Changed(s, since), DeletionsSince(s.log, since));
      && (key in after <==> !LoggedSince(s.log, key, since)
                            && (key in rows || (key in s.table && since <= s.table[key].stamp)))
      && (key in after ==> after[key] == if key in s.table && since <= s.table[key].stamp then s.table[key] else rows[key])
  {
    DeletionsAre(s.log, since, key);
  }

  /** A delta read leaves the client holding exactly the table just when no row in the table has
      had its key deleted since the token. */
  lemma {:induction false} DeltaIsExact(s: Server, rows: map<string, Row>, since: Instant)
    requires forall key :: UpToDate(s, rows, since, key)
    ensures Applied(rows, Changed(s, since), DeletionsSince(s.log, since)) == s.table <==> NoneRecreated(s, since)
  {
    var after := Applied(rows, Changed(s, since), DeletionsSince(s.log, since));
    forall key ensures (key in after <==> key in s.table) <==> (key in s.table ==> !LoggedSince(s.log, key, since))
      ensures key in after && key in s.table ==> after[key] == s.table[key]
    {
      assert UpToDate(s, rows, since, key);
      AppliedAt(s, rows, since, key);
    }
    if NoneRecreated(s, since) {
      assert forall key :: key in after <==> key in s.table;
      assert after == s.table;
    }
    if after == s.table {
      forall key | key in s.table ensures !LoggedSince(s.log, key, since) {
        assert key in after <==> key in s.table;
      }
    }
  }

  // ----- steps -----

  lemma {:induction false} LogGrows(log: seq<Gone>, g: Gone, key: string, since: Instant)
    ensures LoggedSince(log + [g], key, since) <==> LoggedSince(log, key, since) || (g.key == key && since <= g.at)
  {
    var longer := log + [g];
    if LoggedSince(log, key, since) {
      var i :| 0 <= i < |log| && log[i].key == key && since <= log[i].at;
      assert longer[i] == log[i];
    }
    if g.key == key && since <= g.at {
      assert longer[|log|] == g;
    }
  }

  lemma {:induction false} TruncFloor(t: Instant, since: Instant)
    requires since <= t && since % 1000 == 0
    ensures since <= Trunc(t)
  {
  }

  /** Whatever is written, and however the clock moves, the client's rows stay good for their token. */
  lemma {:induction false} WriteInStep(s: System, step: Step, since: Instant)
    requires InStep(s, since) && step != Answer
    ensures InStep(Do(s, step), since)
  {
    var s' := Do(s, step);
    TruncFloor(s.server.clock, since);
    forall key ensures UpToDate(s'.server, s'.client.rows, since, key) {
      assert UpToDate(s.server, s.client.rows, since, key);
      match step {
        case Remove(k) =>
          LogGrows(s.server.log, Gone(k, Trunc(s.server.clock)), key, since);
        case _ =>
      }
    }
  }

  lemma {:induction false} HoldsTable(s: System, since: Instant)
    requires s.client.rows == s.server.table && since <= s.server.clock && since % 1000 == 0
    requires s.client.token == Some(since) && s.asked.None?
    ensures InStep(s, since)
  {
  }

  /** The first read, tracked: its token was taken before its query. */
  lemma {:induction false} FirstAnswer(s: System)
    requires Started(s) && s.asked.Some?
    ensures var s' := Do(s, Answer);
      s'.client.rows == s'.server.table && InStep(s', Trunc(s.asked.value))
  {
    HoldsTable(Do(s, Answer), Trunc(s.asked.value));
  }

  lemma {:induction false} DeltaAnswer(s: System, since: Instant)
    requires InStep(s, since) && s.asked.Some?
    ensures var s' := Do(s, Answer);
      && s'.server == s.server && s'.client.token == Some(Trunc(s.asked.value))
      && (s'.client.rows == s'.server.table <==> NoneRecreated(s.server, since))
      && (NoneRecreated(s.server, since) ==> InStep(s', Trunc(s.asked.value)))
  {
    DeltaIsExact(s.server, s.client.rows, since);
    if NoneRecreated(s.server, since) {
      HoldsTable(Do(s, Answer), Trunc(s.asked.value));
    }
  }

  // ----- runs -----

  /** The token's moment; 0 before there is one. */
  function TokenTime(s: System): Instant {
    match s.client.token case None => 0 case Some(t) => t
  }

  /** A step at which a read is answered. */
  predicate Answers(s: System, step: Step) {
    step == Answer && s.asked.Some?
  }

  /** After every read that was answered the client held exactly the table. */
  ghost predicate Converges(s: System, steps: seq<Step>) {
    |steps| == 0
    || (var n := |steps| - 1;
        Converges(s, steps[..n])
        && (Answers(Run(s, steps[..n]), steps[n]) ==> Run(s, steps).client.rows == Run(s, steps).server.table))
  }

  /** At every delta read that was answered no row in the table had had its key deleted since the
      client's token. */
  ghost predicate NeverRecreatedSince(s: System, steps: seq<Step>) {
    |steps| == 0
    || (var n := |steps| - 1;
        var t := Run(s, steps[..n]);
        NeverRecreatedSince(s, steps[..n])
        && (Answers(t, steps[n]) && t.client.token.Some? ==> NoneRecreated(t.server, TokenTime(t))))
  }

  ghost predicate Sound(s: System) {
    Started(s) || InStep(s, TokenTime(s))
  }

  lemma {:induction false} StepSound(s: System, step: Step)
    requires Sound(s)
    requires Answers(s, step) && s.client.token.Some? ==> NoneRecreated(s.server, TokenTime(s))
    ensures Sound(Do(s, step))
    ensures Answers(s, step) ==> Do(s, step).client.rows == Do(s, step).server.table
  {
    if Answers(s, step) {
      if Started(s) {
        FirstAnswer(s);
      } else {
        DeltaAnswer(s, TokenTime(s));
      }
    } else if !Started(s) {
      if step != Answer {
        WriteInStep(s, step, TokenTime(s));
      }
    }
  }

  lemma {:induction false} StepInexact(s: System, step: Step)
    requires Sound(s) && Answers(s, step) && s.client.token.Some? && !NoneRecreated(s.server, TokenTime(s))
    ensures Do(s, step).client.rows != Do(s, step).server.table
  {
    DeltaAnswer(s, TokenTime(s));
  }

  /** From a client that has read nothing, over any run: after every answered read the replica is
      exactly the table, if and only if no delta read finds a row in the table whose key was
      deleted since the client's token. */
  lemma {:induction false} ReplicaConverges(s: System, steps: seq<Step>)
    requires Started(s)
    ensures Converges(s, steps) <==> NeverRecreatedSince(s, steps)
    ensures Converges(s, steps) ==> Sound(Run(s, steps))
  {
    if |steps| > 0 {
      var n := |steps| - 1;
      ReplicaConverges(s, steps[..n]);
      if Converges(s, steps[..n]) {
        var t := Run(s, steps[..n]);
        if Answers(t, steps[n]) && t.client.token.Some? && !NoneRecreated(t.server, TokenTime(t)) {
          StepInexact(t, steps[n]);
        } else {
          StepSound(t, steps[n]);
        }
      }
    }
  }

  // ----- keys that are never used again -----

  ghost predicate Logged(log: seq<Gone>, key: string) {
    exists i :: 0 <= i < |log| && log[i].key == key
  }

  /** No create in the run uses a key that was deleted before. */
  ghost predicate KeysNew(s: System, steps: seq<Step>) {
    |steps| == 0
    || (var n := |steps| - 1;
        KeysNew(s, steps[..n])
        && (steps[n].Create? ==> !Logged(Run(s, steps[..n]).server.log, steps[n].key)))
  }

  ghost predicate NoRowLogged(s: Server) {
    forall key :: key in s.table ==> !Logged(s.log, key)
  }

  lemma {:induction false} StepNoRowLogged(s: System, step: Step)
    requires NoRowLogged(s.server) && (step.Create? ==> !Logged(s.server.log, step.key))
    ensures NoRowLogged(Do(s, step).server)
  {
    var s' := Do(s, step);
    forall key | key in s'.server.table ensures !Logged(s'.server.log, key) {
      if step.Remove? && step.key in s.server.table {
        assert s'.server.log == s.server.log + [Gone(step.key, Trunc(s.server.clock))];
        assert key in s.server.table;
        assert forall i :: 0 <= i < |s.server.log| ==> s.server.log[i].key != key;
      }
    }
  }

  /** So a run that never creates a key again leaves the replica exact after every read. */
  lemma {:induction false} FreshKeysConverge(s: System, steps: seq<Step>)
    requires Started(s) && NoRowLogged(s.server) && KeysNew(s, steps)
    ensures Converges(s, steps)
  {
    FreshKeys(s, steps);
    ReplicaConverges(s, steps);
  }

  lemma {:induction false} FreshKeys(s: System, steps: seq<Step>)
    requires NoRowLogged(s.server) && KeysNew(s, steps)
    ensures NoRowLogged(Run(s, steps).server) && NeverRecreatedSince(s, steps)
  {
    if |steps| > 0 {
      var n := |steps| - 1;
      FreshKeys(s, steps[..n]);
      var t := Run(s, steps[..n]);
      StepNoRowLogged(t, steps[n]);
      forall key | key in t.server.table ensures !LoggedSince(t.server.log, key, TokenTime(t)) {
        assert !Logged(t.server.log, key);
      }
    }
  }

  // ----- a key created again is lost -----

  /** A row deleted and created again between two reads is taken for deleted by the second. */
  lemma {:induction false} RecreatedIsLost(s: System, since: Instant, key: string)
    requires InStep(s, since) && s.asked.Some? && key in s.server.table && LoggedSince(s.server.log, key, since)
    ensures key !in Do(s, Answer).client.rows
  {
    AppliedAt(s.server, s.client.rows, since, key);
  }

  /** And stays lost: later reads never bring it back until it is written again, once the token
      has moved past its stamp. */
  lemma {:induction false} LostStaysLost(s: System, since: Instant, key: string)
    requires s.client.token == Some(since) && s.asked.Some?
    requires key in s.server.table && s.server.table[key].stamp < since && key !in s.client.rows
    ensures key !in Do(s, Answer).client.rows
  {
    AppliedAt(s.server, s.client.rows, since, key);
  }
}
