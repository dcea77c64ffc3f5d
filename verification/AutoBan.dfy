/** The edge's auto-ban: failures are counted, the ban stored and the count cleared in three separate
    critical sections, so concurrent calls interleave between them. */
module AutoBan {
  import opened Common

  /** Failure counts and ban expiries. */
  datatype Ledger = Ledger(fails: map<string, nat>, until: map<string, int>)

  function Fails(l: Ledger, ip: string): nat {
    if ip in l.fails then l.fails[ip] else 0
  }

  function CountIn(l: Ledger, ip: string): Ledger {
    l.(fails := l.fails[ip := Fails(l, ip) + 1])
  }

  function BanIn(l: Ledger, ip: string, expiry: int): Ledger {
    l.(until := l.until[ip := expiry])
  }

  function ClearIn(l: Ledger, ip: string): Ledger {
    l.(fails := l.fails - {ip})
  }

  /** One undisturbed call: all three sections in a row. */
  function Undisturbed(l: Ledger, ip: string, threshold: int, expiry: int): Ledger {
    if threshold <= 0 then l
    else
      var counted := CountIn(l, ip);
      if Fails(counted, ip) >= threshold then ClearIn(BanIn(counted, ip, expiry), ip) else counted
  }

  class AutoBan {
    const threshold: int
    const duration: int
    var fails: map<string, nat>
    var until: map<string, int>

    function Now(): Ledger
      reads this
    {
      Ledger(fails, until)
    }

    constructor (threshold: int, duration: int)
      ensures this.threshold == threshold && this.duration == duration && Now() == Ledger(map[], map[])
    {
      this.threshold, this.duration, fails, until := threshold, duration, map[], map[];
    }

    method RecordFailure(ip: string, now: int)
      modifies this
      ensures Now() == Undisturbed(old(Now()), ip, threshold, now + duration)
    {
      if threshold <= 0 {
        return;
      }
      fails := fails[ip := (if ip in fails then fails[ip] else 0) + 1];
      var n := fails[ip];
      if n >= threshold {
        until := until[ip := now + duration];
        fails := fails - {ip};
      }
    }

    /** A ban counts up to and including its expiry; a passed one is forgotten. */
    method Banned(ip: string, now: int) returns (banned: bool)
      modifies this`until
      ensures banned <==> ip in old(until) && now <= old(until)[ip]
      ensures until == if banned || ip !in old(until) then old(until) else old(until) - {ip}
    {
      if ip !in until {
        return false;
      }
      if now > until[ip] {
        until := until - {ip};
        return false;
      }
      banned := true;
    }
  }

  // ---------------------------------------------------------------------------
  // Undisturbed calls
  // ---------------------------------------------------------------------------

  ghost function Sequential(l: Ledger, ip: string, threshold: int, expiries: seq<int>): Ledger {
    if expiries == [] then l
    else Undisturbed(Sequential(l, ip, threshold, expiries[..|expiries| - 1]), ip, threshold, expiries[|expiries| - 1])
  }

  lemma QuotientGap(q: int, q': int, th: nat)
    ensures q' >= q + 1 ==> q' * th >= q * th + th
  {
    if q' >= q + 1 {
      assert (q' - q - 1) * th >= 0;
    }
  }

  lemma ModIs(k: nat, th: nat, q: nat, r: nat)
    requires r < th && k == q * th + r
    ensures k % th == r
  {
    QuotientGap(q, k / th, th);
    QuotientGap(k / th, q, th);
  }

  lemma ModSucc(k: nat, th: nat)
    requires th > 0
    ensures (k + 1) % th == if k % th + 1 == th then 0 else k % th + 1
  {
    var q, r := k / th, k % th;
    if r + 1 == th {
      assert k + 1 == (q + 1) * th;
      ModIs(k + 1, th, q + 1, 0);
    } else {
      ModIs(k + 1, th, q, r + 1);
    }
  }

  lemma ModSmall(k: nat, th: nat)
    requires k < th
    ensures k % th == k
  {
    ModIs(k, th, 0, k);
  }

  /** Without concurrency every threshold-th failure bans: the count is the number of failures modulo the
      threshold, and the standing ban is the one set when the last full round ended. */
  lemma {:induction false} EveryRoundBans(ip: string, threshold: nat, expiries: seq<int>)
    requires threshold > 0
    ensures var l, k := Sequential(Ledger(map[], map[]), ip, threshold, expiries), |expiries|;
      && Fails(l, ip) == k % threshold
      && (ip in l.until <==> k >= threshold)
      && (k >= threshold ==> 0 <= k - k % threshold - 1 < k && l.until[ip] == expiries[k - k % threshold - 1])
  {
    var k := |expiries|;
    if k == 0 {
      ModSmall(0, threshold);
    } else {
      EveryRoundBans(ip, threshold, expiries[..k - 1]);
      ModSucc(k - 1, threshold);
      if k < threshold {
        ModSmall(k, threshold);
      } else if k == threshold {
        ModSmall(k - 1, threshold);
      }
    }
  }

  // ---------------------------------------------------------------------------
  // Interleaved calls
  // ---------------------------------------------------------------------------

  /** Where a call stands: before its count, between count and ban, between ban and clear, or returned. */
  datatype Phase = Counting | Banning | Clearing | Done

  datatype Call = Call(ip: string, phase: Phase)

  /** The shared ledger, every call so far, and how often each address has been banned. */
  datatype State = State(ledger: Ledger, calls: map<nat, Call>, bans: map<string, nat>)

  datatype Event =
    | Begin(id: nat, ip: string)
    | Count(id: nat)
    | Ban(id: nat, expiry: int)
    | Clear(id: nat)
    | Forget(ip: string, now: int)

  const INITIAL := State(Ledger(map[], map[]), map[], map[])

  function Bans(s: State, ip: string): nat {
    if ip in s.bans then s.bans[ip] else 0
  }

  predicate At(s: State, id: nat, phase: Phase) {
    id in s.calls && s.calls[id].phase == phase
  }

  predicate Enabled(s: State, e: Event) {
    match e
    case Begin(id, _) => id !in s.calls
    case Count(id) => At(s, id, Counting)
    case Ban(id, _) => At(s, id, Banning)
    case Clear(id) => At(s, id, Clearing)
    case Forget(ip, now) => ip in s.ledger.until && now > s.ledger.until[ip]
  }

  function Moved(s: State, id: nat, phase: Phase): map<nat, Call>
    requires id in s.calls
  {
    s.calls[id := s.calls[id].(phase := phase)]
  }

  function Apply(s: State, e: Event, threshold: nat): State
    requires Enabled(s, e)
  {
    match e
    case Begin(id, ip) => s.(calls := s.calls[id := Call(ip, Counting)])
    case Count(id) =>
      var ip := s.calls[id].ip;
      var ledger := CountIn(s.ledger, ip);
      s.(ledger := ledger, calls := Moved(s, id, if Fails(ledger, ip) >= threshold then Banning else Done))
    case Ban(id, expiry) =>
      var ip := s.calls[id].ip;
      s.(ledger := BanIn(s.ledger, ip, expiry), calls := Moved(s, id, Clearing), bans := s.bans[ip := Bans(s, ip) + 1])
    case Clear(id) =>
      s.(ledger := ClearIn(s.ledger, s.calls[id].ip), calls := Moved(s, id, Done))
    case Forget(ip, now) => s.(ledger := s.ledger.(until := s.ledger.until - {ip}))
  }

  /** A call that runs its sections one after the other does what an undisturbed one does: the failure that reaches the
      threshold bans its address and starts its count anew, and no other address is touched. */
  lemma SectionsInARow(s: State, id: nat, threshold: nat, expiry: int)
    requires threshold > 0 && At(s, id, Counting)
    ensures var ip := s.calls[id].ip;
      var counted := Apply(s, Count(id), threshold);
      var n := (if ip in s.ledger.fails then s.ledger.fails[ip] else 0) + 1;
      var ends := if n < threshold then counted else Apply(Apply(counted, Ban(id, expiry), threshold), Clear(id), threshold);
      && (n < threshold ==> At(counted, id, Done)) && (n >= threshold ==> At(counted, id, Banning))
      && ends.ledger == Undisturbed(s.ledger, ip, threshold, expiry)
      && ends.ledger.fails == (if n < threshold then s.ledger.fails[ip := n] else s.ledger.fails - {ip})
      && ends.ledger.until == (if n < threshold then s.ledger.until else s.ledger.until[ip := expiry])
      && ends.calls == s.calls[id := Call(ip, Done)]
  {
    var ip := s.calls[id].ip;
    var counted := Apply(s, Count(id), threshold);
    assert counted.ledger.fails - {ip} == s.ledger.fails - {ip};
  }

  /** The state after a sequence of events, if each of them was enabled when it happened. */
  ghost function Run(events: seq<Event>, threshold: nat): Option<State> {
    if events == [] then Some(INITIAL)
    else
      match Run(events[..|events| - 1], threshold)
      case None => None
      case Some(s) => if Enabled(s, events[|events| - 1]) then Some(Apply(s, events[|events| - 1], threshold)) else None
  }

  ghost function Ids(calls: map<nat, Call>, ip: string, phase: Phase): set<nat> {
    set id | id in calls && calls[id] == Call(ip, phase)
  }

  /** How many calls for an address stand in a phase. */
  ghost function In(s: State, ip: string, phase: Phase): nat {
    |Ids(s.calls, ip, phase)|
  }

  /** Calls that have counted their failure. */
  ghost function Counted(s: State, ip: string): nat {
    In(s, ip, Banning) + In(s, ip, Clearing) + In(s, ip, Done)
  }

  lemma MoveCounts(s: State, id: nat, phase: Phase, ip: string, other: Phase)
    requires id in s.calls && s.calls[id].phase != phase
    ensures var own, was := s.calls[id].ip == ip, s.calls[id].phase;
      |Ids(Moved(s, id, phase), ip, other)| ==
        In(s, ip, other) + (if own && other == phase then 1 else 0) - (if own && other == was then 1 else 0)
  {
    var before, after := Ids(s.calls, ip, other), Ids(Moved(s, id, phase), ip, other);
    MoveIds(s, id, phase, ip, other);
    hide Ids, Moved;
    assert s.calls[id].ip == ip && other == phase ==> |after| == |before| + 1;
    assert s.calls[id].ip == ip && other == s.calls[id].phase ==> |before| == |after| + 1;
  }

  lemma MoveIds(s: State, id: nat, phase: Phase, ip: string, other: Phase)
    requires id in s.calls && s.calls[id].phase != phase
    ensures var own, was := s.calls[id].ip == ip, s.calls[id].phase;
      var before, after := Ids(s.calls, ip, other), Ids(Moved(s, id, phase), ip, other);
      if own && other == phase then id !in before && after == before + {id}
      else if own && other == was then id !in after && before == after + {id}
      else after == before
  {
  }

  lemma BeginCounts(s: State, id: nat, ip: string, other: string, phase: Phase)
    requires id !in s.calls && phase != Counting
    ensures Ids(s.calls[id := Call(ip, Counting)], other, phase) == Ids(s.calls, other, phase)
  {
  }

  /** What holds for one address in every reachable state. */
  ghost predicate Ok(s: State, ip: string, threshold: nat) {
    && Fails(s.ledger, ip) <= Counted(s, ip)
    && (Fails(s.ledger, ip) >= threshold ==> In(s, ip, Banning) + In(s, ip, Clearing) > 0)
    && (In(s, ip, Banning) + Bans(s, ip) > 0 ==> In(s, ip, Banning) + Bans(s, ip) + threshold <= Counted(s, ip) + 1)
    && (ip in s.ledger.until ==> Bans(s, ip) > 0)
    && (Bans(s, ip) == 0 ==>
          && In(s, ip, Clearing) == 0
          && Fails(s.ledger, ip) == Counted(s, ip)
          && In(s, ip, Done) < threshold)
    && (Bans(s, ip) == 0 && In(s, ip, Banning) > 0 ==> In(s, ip, Done) == threshold - 1)
  }

  lemma CountKeepsOk(s: State, id: nat, ip: string, threshold: nat)
    requires threshold > 0 && Ok(s, ip, threshold) && At(s, id, Counting)
    ensures Ok(Apply(s, Count(id), threshold), ip, threshold)
  {
    var phase := if Fails(CountIn(s.ledger, s.calls[id].ip), s.calls[id].ip) >= threshold then Banning else Done;
    MoveCounts(s, id, phase, ip, Banning);
    MoveCounts(s, id, phase, ip, Clearing);
    MoveCounts(s, id, phase, ip, Done);
  }

  lemma BanKeepsOk(s: State, id: nat, expiry: int, ip: string, threshold: nat)
    requires threshold > 0 && Ok(s, ip, threshold) && At(s, id, Banning)
    ensures Ok(Apply(s, Ban(id, expiry), threshold), ip, threshold)
  {
    MoveCounts(s, id, Clearing, ip, Banning);
    MoveCounts(s, id, Clearing, ip, Clearing);
    MoveCounts(s, id, Clearing, ip, Done);
  }

  lemma ClearKeepsOk(s: State, id: nat, ip: string, threshold: nat)
    requires threshold > 0 && Ok(s, ip, threshold) && At(s, id, Clearing)
    ensures Ok(Apply(s, Clear(id), threshold), ip, threshold)
  {
    MoveCounts(s, id, Done, ip, Banning);
    MoveCounts(s, id, Done, ip, Clearing);
    MoveCounts(s, id, Done, ip, Done);
    if s.calls[id].ip == ip {
      assert id in Ids(s.calls, ip, Clearing);
    }
  }

  lemma ApplyKeepsOk(s: State, e: Event, ip: string, threshold: nat)
    requires threshold > 0 && Ok(s, ip, threshold) && Enabled(s, e)
    ensures Ok(Apply(s, e, threshold), ip, threshold)
  {
    match e
    case Begin(id, other) =>
      BeginCounts(s, id, other, ip, Banning);
      BeginCounts(s, id, other, ip, Clearing);
      BeginCounts(s, id, other, ip, Done);
    case Count(id) => CountKeepsOk(s, id, ip, threshold);
    case Ban(id, expiry) => BanKeepsOk(s, id, expiry, ip, threshold);
    case Clear(id) => ClearKeepsOk(s, id, ip, threshold);
    case Forget(other, now) =>
  }

  lemma {:induction false} ReachableOk(events: seq<Event>, ip: string, threshold: nat)
    requires threshold > 0 && Run(events, threshold).Some?
    ensures Ok(Run(events, threshold).value, ip, threshold)
  {
    if events == [] {
      assert Ids(INITIAL.calls, ip, Banning) == Ids(INITIAL.calls, ip, Clearing) == Ids(INITIAL.calls, ip, Done) == {};
    } else {
      ReachableOk(events[..|events| - 1], ip, threshold);
      ApplyKeepsOk(Run(events[..|events| - 1], threshold).value, events[|events| - 1], ip, threshold);
    }
  }

  /** Over every interleaving with a positive threshold: an address with no call in flight has fewer recorded
      failures than the threshold; a ban comes only after threshold counted failures, and every further ban
      after at least one more; and once threshold calls for an address have returned it has been banned. */
  lemma EveryInterleaving(events: seq<Event>, ip: string, threshold: nat)
    requires threshold > 0 && Run(events, threshold).Some?
    ensures var s := Run(events, threshold).value;
      && (In(s, ip, Banning) + In(s, ip, Clearing) == 0 ==> Fails(s.ledger, ip) < threshold)
      && (Bans(s, ip) > 0 ==> threshold + Bans(s, ip) <= Counted(s, ip) + 1)
      && (ip in s.ledger.until ==> Counted(s, ip) >= threshold)
      && (In(s, ip, Done) >= threshold ==> Bans(s, ip) > 0)
  {
    ReachableOk(events, ip, threshold);
  }

  // ---------------------------------------------------------------------------
  // When every full round bans
  // ---------------------------------------------------------------------------

  lemma DivSucc(k: nat, th: nat)
    requires th > 0
    ensures (k + 1) / th == k / th + if k % th + 1 == th then 1 else 0
  {
    ModSucc(k, th);
    var q, q' := k / th, (k + 1) / th;
    assert k == q * th + k % th && k + 1 == q' * th + (k + 1) % th;
    QuotientGap(q, q', th);
    QuotientGap(q + 1, q', th);
    QuotientGap(q', q, th);
  }

  /** An address has been banned, or is just about to be, once for every full round of counted failures. */
  ghost predicate InStep(s: State, ip: string, threshold: nat)
    requires threshold > 0
  {
    In(s, ip, Banning) + Bans(s, ip) == Counted(s, ip) / threshold
  }

  /** A failure of the address is counted while another call for it is between its sections. */
  ghost predicate Overlaps(s: State, e: Event, ip: string) {
    e.Count? && e.id in s.calls && s.calls[e.id].ip == ip && In(s, ip, Banning) + In(s, ip, Clearing) > 0
  }

  ghost predicate NeverOverlaps(events: seq<Event>, ip: string, threshold: nat) {
    forall k :: 0 <= k < |events| ==>
      match Run(events[..k], threshold) case None => true case Some(s) => !Overlaps(s, events[k], ip)
  }

  ghost predicate AlwaysInStep(events: seq<Event>, ip: string, threshold: nat)
    requires threshold > 0
  {
    forall k :: 0 <= k <= |events| ==>
      match Run(events[..k], threshold) case None => true case Some(s) => InStep(s, ip, threshold)
  }

  /** Without overlap: at most one call is between its sections, the count then stands at the threshold, and otherwise it
      is the number of failures since the last full round. */
  ghost predicate InRounds(s: State, ip: string, threshold: nat)
    requires threshold > 0
  {
    var between := In(s, ip, Banning) + In(s, ip, Clearing);
    && InStep(s, ip, threshold) && between <= 1
    && Fails(s.ledger, ip) == threshold * between + Counted(s, ip) % threshold
    && (between == 1 ==> Counted(s, ip) % threshold == 0)
  }

  lemma Once(threshold: nat)
    ensures threshold * 0 == 0 && threshold * 1 == threshold
  {
  }

  lemma CountInRounds(s: State, id: nat, ip: string, threshold: nat)
    requires threshold > 0 && InRounds(s, ip, threshold) && At(s, id, Counting) && !Overlaps(s, Count(id), ip)
    ensures InRounds(Apply(s, Count(id), threshold), ip, threshold)
  {
    var phase := if Fails(CountIn(s.ledger, s.calls[id].ip), s.calls[id].ip) >= threshold then Banning else Done;
    Once(threshold);
    ModSucc(Counted(s, ip), threshold);
    DivSucc(Counted(s, ip), threshold);
    MoveCounts(s, id, phase, ip, Banning);
    MoveCounts(s, id, phase, ip, Clearing);
    MoveCounts(s, id, phase, ip, Done);
    hide Ids, Moved;
  }

  lemma BanInRounds(s: State, id: nat, expiry: int, ip: string, threshold: nat)
    requires threshold > 0 && InRounds(s, ip, threshold) && At(s, id, Banning)
    ensures InRounds(Apply(s, Ban(id, expiry), threshold), ip, threshold)
  {
    MoveCounts(s, id, Clearing, ip, Banning);
    MoveCounts(s, id, Clearing, ip, Clearing);
    MoveCounts(s, id, Clearing, ip, Done);
    hide Ids, Moved;
  }

  lemma ClearInRounds(s: State, id: nat, ip: string, threshold: nat)
    requires threshold > 0 && InRounds(s, ip, threshold) && At(s, id, Clearing)
    ensures InRounds(Apply(s, Clear(id), threshold), ip, threshold)
  {
    Once(threshold);
    MoveCounts(s, id, Done, ip, Banning);
    MoveCounts(s, id, Done, ip, Clearing);
    MoveCounts(s, id, Done, ip, Done);
    if s.calls[id].ip == ip {
      assert id in Ids(s.calls, ip, Clearing);
    }
    hide Ids, Moved;
  }

  lemma ApplyInRounds(s: State, e: Event, ip: string, threshold: nat)
    requires threshold > 0 && InRounds(s, ip, threshold) && Enabled(s, e) && !Overlaps(s, e, ip)
    ensures InRounds(Apply(s, e, threshold), ip, threshold)
  {
    match e
    case Begin(id, other) =>
      BeginCounts(s, id, other, ip, Banning);
      BeginCounts(s, id, other, ip, Clearing);
      BeginCounts(s, id, other, ip, Done);
    case Count(id) => CountInRounds(s, id, ip, threshold);
    case Ban(id, expiry) => BanInRounds(s, id, expiry, ip, threshold);
    case Clear(id) => ClearInRounds(s, id, ip, threshold);
    case Forget(other, now) =>
  }

  /** With a threshold of one every count bans, overlap or not. */
  lemma ApplyAtOne(s: State, e: Event, ip: string)
    requires InStep(s, ip, 1) && Enabled(s, e)
    ensures InStep(Apply(s, e, 1), ip, 1)
  {
    match e
    case Begin(id, other) =>
      BeginCounts(s, id, other, ip, Banning);
      BeginCounts(s, id, other, ip, Clearing);
      BeginCounts(s, id, other, ip, Done);
    case Count(id) =>
      MoveCounts(s, id, Banning, ip, Banning);
      MoveCounts(s, id, Banning, ip, Clearing);
      MoveCounts(s, id, Banning, ip, Done);
    case Ban(id, expiry) =>
      MoveCounts(s, id, Clearing, ip, Banning);
      MoveCounts(s, id, Clearing, ip, Clearing);
      MoveCounts(s, id, Clearing, ip, Done);
    case Clear(id) =>
      MoveCounts(s, id, Done, ip, Banning);
      MoveCounts(s, id, Done, ip, Clearing);
      MoveCounts(s, id, Done, ip, Done);
    case Forget(other, now) =>
  }

  /** The first overlap with a higher threshold bans once more than there are full rounds. */
  lemma OverlapBreaksStep(s: State, e: Event, ip: string, threshold: nat)
    requires threshold > 1 && InRounds(s, ip, threshold) && Enabled(s, e) && Overlaps(s, e, ip)
    ensures !InStep(Apply(s, e, threshold), ip, threshold)
  {
    Once(threshold);
    DivSucc(Counted(s, ip), threshold);
    MoveCounts(s, e.id, Banning, ip, Banning);
    MoveCounts(s, e.id, Banning, ip, Clearing);
    MoveCounts(s, e.id, Banning, ip, Done);
    hide Ids, Moved;
  }

  lemma NothingInStep(ip: string, threshold: nat)
    requires threshold > 0
    ensures InRounds(INITIAL, ip, threshold)
  {
    assert Ids(INITIAL.calls, ip, Banning) == Ids(INITIAL.calls, ip, Clearing) == Ids(INITIAL.calls, ip, Done) == {};
    ModSmall(0, threshold);
    Once(threshold);
  }

  /** The two conditions, one event at a time. */
  lemma SplitLast(events: seq<Event>, ip: string, threshold: nat)
    requires threshold > 0 && events != [] && Run(events, threshold).Some?
    ensures var front, last := events[..|events| - 1], events[|events| - 1];
      Run(front, threshold).Some? && var s := Run(front, threshold).value;
      && Enabled(s, last) && Run(events, threshold) == Some(Apply(s, last, threshold))
      && (NeverOverlaps(events, ip, threshold) <==> NeverOverlaps(front, ip, threshold) && !Overlaps(s, last, ip))
      && (AlwaysInStep(events, ip, threshold) <==>
            AlwaysInStep(front, ip, threshold) && InStep(Run(events, threshold).value, ip, threshold))
  {
    hide Apply, Enabled, Overlaps, InStep;
    var front := events[..|events| - 1];
    assert events[..|events|] == events;
    assert forall k :: 0 <= k <= |front| ==> front[..k] == events[..k];
    assert front[..|front|] == front;
  }

  lemma {:induction false} RoundsWithoutOverlap(events: seq<Event>, ip: string, threshold: nat)
    requires threshold > 0 && Run(events, threshold).Some? && NeverOverlaps(events, ip, threshold)
    ensures InRounds(Run(events, threshold).value, ip, threshold)
  {
    if events == [] {
      NothingInStep(ip, threshold);
    } else {
      SplitLast(events, ip, threshold);
      RoundsWithoutOverlap(events[..|events| - 1], ip, threshold);
      ApplyInRounds(Run(events[..|events| - 1], threshold).value, events[|events| - 1], ip, threshold);
    }
  }

  /** Along a run an address is banned exactly once for every full round of counted failures, at every moment, if and only
      if the threshold is one or no failure of it is counted while another call for it is between its sections. */
  lemma {:induction false} EveryRoundBansIff(events: seq<Event>, ip: string, threshold: nat)
    requires threshold > 0 && Run(events, threshold).Some?
    ensures AlwaysInStep(events, ip, threshold) <==> threshold == 1 || NeverOverlaps(events, ip, threshold)
  {
    if events == [] {
      NothingInStep(ip, threshold);
      assert events[..0] == [];
    } else {
      var front, last := events[..|events| - 1], events[|events| - 1];
      SplitLast(events, ip, threshold);
      EveryRoundBansIff(front, ip, threshold);
      var s := Run(front, threshold).value;
      hide Overlaps, Apply, InRounds, NeverOverlaps;
      if threshold == 1 {
        assert front[..|front|] == front;
        if AlwaysInStep(front, ip, threshold) {
          ApplyAtOne(s, last, ip);
        }
      } else if NeverOverlaps(front, ip, threshold) {
        RoundsWithoutOverlap(front, ip, threshold);
        if Overlaps(s, last, ip) {
          OverlapBreaksStep(s, last, ip, threshold);
        } else {
          ApplyInRounds(s, last, ip, threshold);
          RoundsAreInStep(Apply(s, last, threshold), ip, threshold);
        }
      }
    }
  }

  lemma RoundsAreInStep(s: State, ip: string, threshold: nat)
    requires threshold > 0 && InRounds(s, ip, threshold)
    ensures InStep(s, ip, threshold)
  {
  }

  // ---------------------------------------------------------------------------
  // What the three sections do not give
  // ---------------------------------------------------------------------------

  lemma RunMore(events: seq<Event>, s: State, e: Event, s': State, threshold: nat)
    requires Run(events, threshold) == Some(s) && Enabled(s, e) && s' == Apply(s, e, threshold)
    ensures Run(events + [e], threshold) == Some(s')
  {
    assert (events + [e])[..|events|] == events;
  }

  /** Five calls of one address, none of which has counted yet. */
  function FiveBegun(): seq<Event> {
    [Begin(1, "x"), Begin(2, "x"), Begin(3, "x"), Begin(4, "x"), Begin(5, "x")]
  }

  /** Three of them count, and two ban. */
  function TwoBans(): seq<Event> {
    FiveBegun() + [Count(1), Count(2), Count(3), Ban(2, 10), Ban(3, 10)]
  }

  /** The bans are cleared one by one, with a failure counted before and one after the second clear. */
  function AfterBans(): seq<Event> {
    [Clear(2), Count(4), Clear(3), Count(5)]
  }

  function Calls(p1: Phase, p2: Phase, p3: Phase, p4: Phase, p5: Phase): map<nat, Call> {
    map[1 := Call("x", p1), 2 := Call("x", p2), 3 := Call("x", p3), 4 := Call("x", p4), 5 := Call("x", p5)]
  }

  lemma RunFive()
    ensures Run(FiveBegun(), 2) == Some(State(Ledger(map[], map[]), Calls(Counting, Counting, Counting, Counting, Counting), map[]))
  {
    var s1 := Apply(INITIAL, Begin(1, "x"), 2);
    var s2 := Apply(s1, Begin(2, "x"), 2);
    var s3 := Apply(s2, Begin(3, "x"), 2);
    var s4 := Apply(s3, Begin(4, "x"), 2);
    var s5 := Apply(s4, Begin(5, "x"), 2);
    var e0: seq<Event> := [];
    RunMore(e0, INITIAL, Begin(1, "x"), s1, 2);
    RunMore(e0 + [Begin(1, "x")], s1, Begin(2, "x"), s2, 2);
    RunMore(e0 + [Begin(1, "x")] + [Begin(2, "x")], s2, Begin(3, "x"), s3, 2);
    RunMore(e0 + [Begin(1, "x")] + [Begin(2, "x")] + [Begin(3, "x")], s3, Begin(4, "x"), s4, 2);
    RunMore(e0 + [Begin(1, "x")] + [Begin(2, "x")] + [Begin(3, "x")] + [Begin(4, "x")], s4, Begin(5, "x"), s5, 2);
    assert FiveBegun() == e0 + [Begin(1, "x")] + [Begin(2, "x")] + [Begin(3, "x")] + [Begin(4, "x")] + [Begin(5, "x")];
    assert s5.calls == Calls(Counting, Counting, Counting, Counting, Counting);
  }

  function ThreeCounts(): seq<Event> {
    FiveBegun() + [Count(1)] + [Count(2)] + [Count(3)]
  }

  lemma RunThreeCounts()
    ensures Run(ThreeCounts(), 2) == Some(State(Ledger(map["x" := 3], map[]), Calls(Done, Banning, Banning, Counting, Counting), map[]))
  {
    RunFive();
    var e := FiveBegun();
    var s0 := State(Ledger(map[], map[]), Calls(Counting, Counting, Counting, Counting, Counting), map[]);
    var s1 := Apply(s0, Count(1), 2);
    var s2 := Apply(s1, Count(2), 2);
    var s3 := Apply(s2, Count(3), 2);
    RunMore(e, s0, Count(1), s1, 2);
    RunMore(e + [Count(1)], s1, Count(2), s2, 2);
    RunMore(e + [Count(1)] + [Count(2)], s2, Count(3), s3, 2);
    assert s3.calls == Calls(Done, Banning, Banning, Counting, Counting);
    assert s3.ledger == Ledger(map["x" := 3], map[]);
  }

  lemma RunTwoBans()
    ensures Run(TwoBans(), 2) ==
            Some(State(Ledger(map["x" := 3], map["x" := 10]), Calls(Done, Clearing, Clearing, Counting, Counting), map["x" := 2]))
  {
    RunOneBan();
    var e := ThreeCounts() + [Ban(2, 10)];
    var s := State(Ledger(map["x" := 3], map["x" := 10]), Calls(Done, Clearing, Banning, Counting, Counting), map["x" := 1]);
    var s' := Apply(s, Ban(3, 10), 2);
    RunMore(e, s, Ban(3, 10), s', 2);
    assert TwoBans() == e + [Ban(3, 10)];
    assert s'.calls == Calls(Done, Clearing, Clearing, Counting, Counting);
    assert s'.ledger == Ledger(map["x" := 3], map["x" := 10]);
    assert s'.bans == map["x" := 2];
  }

  lemma RunOneBan()
    ensures Run(ThreeCounts() + [Ban(2, 10)], 2) ==
            Some(State(Ledger(map["x" := 3], map["x" := 10]), Calls(Done, Clearing, Banning, Counting, Counting), map["x" := 1]))
  {
    RunThreeCounts();
    var s := State(Ledger(map["x" := 3], map[]), Calls(Done, Banning, Banning, Counting, Counting), map[]);
    var s' := Apply(s, Ban(2, 10), 2);
    RunMore(ThreeCounts(), s, Ban(2, 10), s', 2);
    assert s'.calls == Calls(Done, Clearing, Banning, Counting, Counting);
    assert s'.ledger == Ledger(map["x" := 3], map["x" := 10]);
    assert s'.bans == map["x" := 1];
  }

  /** A slow call's clear can wipe a failure counted after its ban: with threshold two, two more failures are
      counted and return after the last ban, yet the address is not banned again. */
  lemma ClearCanWipeAFailure()
    ensures Run(TwoBans() + AfterBans(), 2) ==
            Some(State(Ledger(map["x" := 1], map["x" := 10]), Calls(Done, Done, Done, Done, Done), map["x" := 2]))
  {
    RunTwoBans();
    var e := TwoBans();
    var s0 := State(Ledger(map["x" := 3], map["x" := 10]), Calls(Done, Clearing, Clearing, Counting, Counting), map["x" := 2]);
    var s1 := Apply(s0, Clear(2), 2);
    var s2 := Apply(s1, Count(4), 2);
    var s3 := Apply(s2, Clear(3), 2);
    var s4 := Apply(s3, Count(5), 2);
    RunMore(e, s0, Clear(2), s1, 2);
    RunMore(e + [Clear(2)], s1, Count(4), s2, 2);
    RunMore(e + [Clear(2)] + [Count(4)], s2, Clear(3), s3, 2);
    RunMore(e + [Clear(2)] + [Count(4)] + [Clear(3)], s3, Count(5), s4, 2);
    assert e + AfterBans() == e + [Clear(2)] + [Count(4)] + [Clear(3)] + [Count(5)];
    assert s4.calls == Calls(Done, Done, Done, Done, Done);
    assert s4.ledger == Ledger(map["x" := 1], map["x" := 10]);
  }
}
