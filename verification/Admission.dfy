/**
 * Admission control: a per-minute counter, a per-user counter and a global counter of
 * requests in flight, changed by interleaved requests through separate commands.
 */
module Admission {
  import Sets

  /** The store's keys; the first is a user's counter for one minute. */
  datatype Key = MinuteKey(user: nat, window: nat) | UserKey(user: nat) | GlobalKey

  datatype Caps = Caps(perMinute: nat, perUser: nat, everyone: nat)

  function Cap(caps: Caps, k: Key): nat {
    match k
    case MinuteKey(_, _) => caps.perMinute
    case UserKey(_) => caps.perUser
    case GlobalKey => caps.everyone
  }

  datatype Outcome = Served | TooMany | UserFull | AllFull

  /** Where a request stands between two commands; `current` and `left` are the last reply. */
  datatype Pc =
    | Arrived
    | MinuteCounted(current: int)
    | UserCounted(current: int)
    | GlobalCounted(current: int)
    | Running
    | GlobalDropped(left: int)
    | Leaving(outcome: Outcome)
    | UserDropped(outcome: Outcome, left: int)
    | Done(outcome: Outcome)

  datatype Request = Request(user: nat, window: nat, pc: Pc)

  datatype Command = Incr(key: Key) | Decr(key: Key) | SetZero(key: Key) | NoCommand

  datatype State = State(counters: map<Key, int>, requests: map<nat, Request>)

  const EMPTY := State(map[], map[])

  function Counter(s: State, k: Key): int {
    if k in s.counters then s.counters[k] else 0
  }

  // ---------------------------------------------------------------- one request

  /** The command a request sends next, after comparing the last reply. */
  function NextCommand(caps: Caps, r: Request): Command {
    match r.pc
    case Arrived => Incr(MinuteKey(r.user, r.window))
    case MinuteCounted(current) => if current > caps.perMinute then NoCommand else Incr(UserKey(r.user))
    case UserCounted(current) => if current > caps.perUser then Decr(UserKey(r.user)) else Incr(GlobalKey)
    case GlobalCounted(current) => if current > caps.everyone then Decr(GlobalKey) else NoCommand
    case Running => Decr(GlobalKey)
    case GlobalDropped(left) => if left < 0 then SetZero(GlobalKey) else NoCommand
    case Leaving(_) => Decr(UserKey(r.user))
    case UserDropped(_, left) => if left < 0 then SetZero(UserKey(r.user)) else NoCommand
    case Done(_) => NoCommand
  }

  function Resume(caps: Caps, pc: Pc, reply: int): Pc {
    match pc
    case Arrived => MinuteCounted(reply)
    case MinuteCounted(current) => if current > caps.perMinute then Done(TooMany) else UserCounted(reply)
    case UserCounted(current) => if current > caps.perUser then Done(UserFull) else GlobalCounted(reply)
    case GlobalCounted(current) => if current > caps.everyone then Leaving(AllFull) else Running
    case Running => GlobalDropped(reply)
    case GlobalDropped(_) => Leaving(Served)
    case Leaving(outcome) => UserDropped(outcome, reply)
    case UserDropped(outcome, _) => Done(outcome)
    case Done(_) => pc
  }

  function Reply(s: State, c: Command): int {
    match c
    case Incr(k) => Counter(s, k) + 1
    case Decr(k) => Counter(s, k) - 1
    case SetZero(_) => 0
    case NoCommand => 0
  }

  function Executed(s: State, c: Command): map<Key, int> {
    if c.NoCommand? then s.counters else s.counters[c.key := Reply(s, c)]
  }

  datatype Event = Arrive(pid: nat, user: nat, window: nat) | Move(pid: nat)

  predicate Enabled(s: State, e: Event) {
    match e
    case Arrive(pid, _, _) => pid !in s.requests
    case Move(pid) => pid in s.requests && !s.requests[pid].pc.Done?
  }

  function Moved(caps: Caps, s: State, pid: nat): State
    requires pid in s.requests
  {
    var r := s.requests[pid];
    var c := NextCommand(caps, r);
    State(Executed(s, c), s.requests[pid := r.(pc := Resume(caps, r.pc, Reply(s, c)))])
  }

  function Happens(caps: Caps, s: State, e: Event): State
    requires Enabled(s, e)
  {
    match e
    case Arrive(pid, user, window) => s.(requests := s.requests[pid := Request(user, window, Arrived)])
    case Move(pid) => Moved(caps, s, pid)
  }

  ghost predicate IsRun(caps: Caps, s: State, events: seq<Event>, end: State)
    decreases |events|
  {
    if events == [] then end == s
    else Enabled(s, events[0]) && IsRun(caps, Happens(caps, s, events[0]), events[1..], end)
  }

  // ---------------------------------------------------------------- the store as it runs

  /** The shared store and the requests suspended between their commands. */
  class Limiter {
    var counters: map<Key, int>
    var requests: map<nat, Request>
    const caps: Caps

    constructor (caps: Caps)
      ensures Now() == EMPTY && this.caps == caps
    {
      counters, requests := map[], map[];
      this.caps := caps;
    }

    ghost function Now(): State
      reads this
    {
      State(counters, requests)
    }

    method Add(k: Key, delta: int) returns (reply: int)
      modifies `counters
      ensures reply == Counter(old(Now()), k) + delta
      ensures counters == old(counters)[k := reply]
    {
      reply := (if k in counters then counters[k] else 0) + delta;
      counters := counters[k := reply];
    }

    method Accept(pid: nat, user: nat, window: nat)
      requires pid !in requests
      modifies `requests
      ensures Now() == Happens(caps, old(Now()), Arrive(pid, user, window))
    {
      requests := requests[pid := Request(user, window, Arrived)];
    }

    /** A suspended request runs up to its next reply. */
    method Continue(pid: nat)
      requires pid in requests
      modifies this
      ensures Now() == Moved(caps, old(Now()), pid)
    {
      var r := requests[pid];
      var reply := 0;
      match r.pc {
        case Arrived => reply := Add(MinuteKey(r.user, r.window), 1);
        case MinuteCounted(current) =>
          if current <= caps.perMinute {
            reply := Add(UserKey(r.user), 1);
          }
        case UserCounted(current) =>
          if current > caps.perUser {
            reply := Add(UserKey(r.user), -1);
          } else {
            reply := Add(GlobalKey, 1);
          }
        case GlobalCounted(current) =>
          if current > caps.everyone {
            reply := Add(GlobalKey, -1);
          }
        case Running => reply := Add(GlobalKey, -1);
        case GlobalDropped(left) =>
          if left < 0 {
            counters := counters[GlobalKey := 0];
          }
        case Leaving(_) => reply := Add(UserKey(r.user), -1);
        case UserDropped(_, left) =>
          if left < 0 {
            counters := counters[UserKey(r.user) := 0];
          }
        case Done(_) =>
      }
      requests := requests[pid := r.(pc := Resume(caps, r.pc, reply))];
    }
  }

  // ---------------------------------------------------------------- what is counted

  /** The request is between its increment and its decrement of the key. */
  predicate Counts(r: Request, k: Key) {
    match k
    case MinuteKey(user, window) => r.user == user && r.window == window && !r.pc.Arrived?
    case UserKey(user) =>
      r.user == user
      && (r.pc.UserCounted? || r.pc.GlobalCounted? || r.pc.Running? || r.pc.GlobalDropped? || r.pc.Leaving?)
    case GlobalKey => r.pc.GlobalCounted? || r.pc.Running?
  }

  /** The request counted is not about to be refused by this key, nor was. */
  predicate Admits(caps: Caps, r: Request, k: Key) {
    && Counts(r, k)
    && match k
       case MinuteKey(_, _) => r.pc != Done(TooMany) && (r.pc.MinuteCounted? ==> r.pc.current <= caps.perMinute)
       case UserKey(_) => r.pc.UserCounted? ==> r.pc.current <= caps.perUser
       case GlobalKey => r.pc.GlobalCounted? ==> r.pc.current <= caps.everyone
  }

  function Counted(s: State, k: Key): set<nat> {
    set p | p in s.requests && Counts(s.requests[p], k)
  }

  function Admitted(caps: Caps, s: State, k: Key): set<nat> {
    set p | p in s.requests && Admits(caps, s.requests[p], k)
  }

  /** The clamp to zero will not be taken. */
  predicate NoClamp(pc: Pc) {
    (pc.GlobalDropped? || pc.UserDropped?) ==> pc.left >= 0
  }

  ghost predicate Exact(s: State) {
    forall k :: Counter(s, k) == |Counted(s, k)|
  }

  ghost predicate WithinCaps(caps: Caps, s: State) {
    forall k :: |Admitted(caps, s, k)| <= Cap(caps, k)
  }

  ghost predicate Sound(caps: Caps, s: State) {
    && Exact(s)
    && WithinCaps(caps, s)
    && forall p | p in s.requests :: NoClamp(s.requests[p].pc)
  }

  // ---------------------------------------------------------------- one move

  /** A command changes what is counted by exactly the request that sends it. */
  lemma CommandCounts(caps: Caps, r: Request, reply: int, k: Key)
    requires NoClamp(r.pc)
    ensures var c, q := NextCommand(caps, r), r.(pc := Resume(caps, r.pc, reply));
            && !c.SetZero?
            && (c == Incr(k) ==> !Counts(r, k) && Counts(q, k))
            && (c == Decr(k) ==> Counts(r, k) && !Counts(q, k))
            && (c != Incr(k) && c != Decr(k) ==> Counts(r, k) == Counts(q, k))
  {
  }

  /** A request is only newly admitted by a counter whose increment came back within the cap. */
  lemma CommandAdmits(caps: Caps, r: Request, reply: int, k: Key)
    requires !Admits(caps, r, k) && Admits(caps, r.(pc := Resume(caps, r.pc, reply)), k)
    ensures NextCommand(caps, r) == Incr(k) && reply <= Cap(caps, k)
  {
  }

  lemma CountedAfter(s: State, t: State, pid: nat, k: Key)
    requires pid in s.requests && t.requests.Keys == s.requests.Keys
    requires forall p | p in s.requests && p != pid :: t.requests[p] == s.requests[p]
    ensures Counted(t, k) == (if Counts(t.requests[pid], k) then Counted(s, k) + {pid} else Counted(s, k) - {pid})
  {
    hide Counts;
  }

  lemma MoveKeepsExact(caps: Caps, s: State, pid: nat)
    requires Sound(caps, s) && pid in s.requests
    ensures Exact(Moved(caps, s, pid))
    ensures NoClamp(Moved(caps, s, pid).requests[pid].pc)
  {
    var r, t := s.requests[pid], Moved(caps, s, pid);
    var c := NextCommand(caps, r);
    forall k ensures Counter(t, k) == |Counted(t, k)| {
      CommandCounts(caps, r, Reply(s, c), k);
      CountedAfter(s, t, pid, k);
      hide Resume, NextCommand, Counts, NoClamp;
      assert pid in Counted(s, k) <==> Counts(r, k);
    }
    if c.Decr? {
      CommandCounts(caps, r, Reply(s, c), c.key);
      assert pid in Counted(s, c.key);
    }
  }

  lemma MoveKeepsWithinCaps(caps: Caps, s: State, pid: nat)
    requires Sound(caps, s) && pid in s.requests
    ensures WithinCaps(caps, Moved(caps, s, pid))
  {
    var r, t := s.requests[pid], Moved(caps, s, pid);
    MoveKeepsExact(caps, s, pid);
    hide Resume, NextCommand, Exact, NoClamp, Cap;
    forall k ensures |Admitted(caps, t, k)| <= Cap(caps, k) {
      if Admits(caps, t.requests[pid], k) && !Admits(caps, r, k) {
        CommandAdmits(caps, r, Reply(s, NextCommand(caps, r)), k);
        assert Counter(t, k) == |Counted(t, k)| by {
          assert Exact(t);
        }
        Sets.SubsetSize(Admitted(caps, t, k), Counted(t, k));
      } else {
        hide Admits;
        assert Admitted(caps, t, k) <= Admitted(caps, s, k);
        Sets.SubsetSize(Admitted(caps, t, k), Admitted(caps, s, k));
      }
    }
  }

  lemma EventKeepsSound(caps: Caps, s: State, e: Event)
    requires Sound(caps, s) && Enabled(s, e)
    ensures Sound(caps, Happens(caps, s, e))
  {
    var t := Happens(caps, s, e);
    match e {
      case Arrive(pid, user, window) =>
        forall k ensures Counted(t, k) == Counted(s, k) && Admitted(caps, t, k) == Admitted(caps, s, k) {
        }
        assert Exact(t) by {
          forall k ensures Counter(t, k) == |Counted(t, k)| {
            assert Counter(t, k) == Counter(s, k);
          }
        }
      case Move(pid) =>
        MoveKeepsExact(caps, s, pid);
        MoveKeepsWithinCaps(caps, s, pid);
    }
  }

  lemma {:induction false} RunKeepsSound(caps: Caps, s: State, events: seq<Event>, end: State)
    requires Sound(caps, s) && IsRun(caps, s, events, end)
    ensures Sound(caps, end)
    decreases |events|
  {
    hide Sound, Happens;
    if events != [] {
      EventKeepsSound(caps, s, events[0]);
      RunKeepsSound(caps, Happens(caps, s, events[0]), events[1..], end);
    }
  }

  // ---------------------------------------------------------------- every run

  function InFlight(s: State): set<nat> {
    set p | p in s.requests && s.requests[p].pc.Running?
  }

  function InFlightOf(s: State, user: nat): set<nat> {
    set p | p in s.requests && s.requests[p].pc.Running? && s.requests[p].user == user
  }

  /**
   * Under any interleaving: every counter equals the number of requests between their
   * increment and decrement of it; no more requests run than the user cap and the
   * global cap allow; and no request ever finds a counter below zero to clamp.
   */
  lemma EveryRunIsAdmitted(caps: Caps, events: seq<Event>, s: State)
    requires IsRun(caps, EMPTY, events, s)
    ensures forall k :: Counter(s, k) == |Counted(s, k)|
    ensures forall k :: |Admitted(caps, s, k)| <= Cap(caps, k)
    ensures |InFlight(s)| <= caps.everyone
    ensures forall user :: |InFlightOf(s, user)| <= caps.perUser
    ensures forall p | p in s.requests :: !NextCommand(caps, s.requests[p]).SetZero?
  {
    assert Sound(caps, EMPTY) by {
      forall k ensures Counted(EMPTY, k) == {} && Admitted(caps, EMPTY, k) == {} {
      }
      forall k ensures Counter(EMPTY, k) == |Counted(EMPTY, k)| {
      }
    }
    RunKeepsSound(caps, EMPTY, events, s);
    Sets.SubsetSize(InFlight(s), Admitted(caps, s, GlobalKey));
    assert Cap(caps, GlobalKey) == caps.everyone;
    forall user ensures |InFlightOf(s, user)| <= caps.perUser {
      Sets.SubsetSize(InFlightOf(s, user), Admitted(caps, s, UserKey(user)));
      assert Cap(caps, UserKey(user)) == caps.perUser;
    }
  }

  /** Once every request is done, however it ended, both in-flight counters are back at zero. */
  lemma NoSlotLeaks(caps: Caps, events: seq<Event>, s: State, user: nat)
    requires IsRun(caps, EMPTY, events, s)
    requires forall p | p in s.requests :: s.requests[p].pc.Done?
    ensures Counter(s, GlobalKey) == 0 && Counter(s, UserKey(user)) == 0
  {
    EveryRunIsAdmitted(caps, events, s);
    assert Counted(s, GlobalKey) == {} && Counted(s, UserKey(user)) == {};
  }

  /** A request is refused exactly when at least the cap of others are between increment and decrement. */
  lemma RefusedWhenFull(caps: Caps, events: seq<Event>, s: State, pid: nat, k: Key)
    requires IsRun(caps, EMPTY, events, s) && pid in s.requests
    requires NextCommand(caps, s.requests[pid]) == Incr(k)
    ensures Admits(caps, Moved(caps, s, pid).requests[pid], k) <==> |Counted(s, k) - {pid}| < Cap(caps, k)
  {
    EveryRunIsAdmitted(caps, events, s);
    hide IsRun, Executed;
    assert pid !in Counted(s, k);
    assert Counted(s, k) - {pid} == Counted(s, k);
  }

  /** How many more moves a request has. */
  function MovesLeft(pc: Pc): nat {
    match pc
    case Arrived => 8
    case MinuteCounted(_) => 7
    case UserCounted(_) => 6
    case GlobalCounted(_) => 5
    case Running => 4
    case GlobalDropped(_) => 3
    case Leaving(_) => 2
    case UserDropped(_, _) => 1
    case Done(_) => 0
  }

  function MovesOf(events: seq<Event>, pid: nat): nat {
    if events == [] then 0 else (if events[0] == Move(pid) then 1 else 0) + MovesOf(events[1..], pid)
  }

  /** Each move brings its own request closer to the end and sets no other back. */
  lemma {:induction false} MovesAreBounded(caps: Caps, s: State, events: seq<Event>, end: State, pid: nat)
    requires IsRun(caps, s, events, end)
    ensures pid in s.requests ==>
              pid in end.requests
              && MovesOf(events, pid) + MovesLeft(end.requests[pid].pc) <= MovesLeft(s.requests[pid].pc)
    ensures pid in end.requests ==> MovesOf(events, pid) + MovesLeft(end.requests[pid].pc) <= 8
    ensures pid !in end.requests ==> MovesOf(events, pid) == 0
    decreases |events|
  {
    if events != [] {
      var next := Happens(caps, s, events[0]);
      MovesAreBounded(caps, next, events[1..], end, pid);
    }
  }

  // ---------------------------------------------------------------- one request from end to end

  /** The commands a request sends when the store gives it these replies, one for each move. */
  function Script(caps: Caps, r: Request, replies: seq<int>): seq<Command>
    decreases |replies|
  {
    if replies == [] || r.pc.Done? then []
    else
      var c := NextCommand(caps, r);
      (if c.NoCommand? then [] else [c]) + Script(caps, r.(pc := Resume(caps, r.pc, replies[0])), replies[1..])
  }

  /** Where the replies leave it. */
  function Ends(caps: Caps, r: Request, replies: seq<int>): Pc
    decreases |replies|
  {
    if replies == [] || r.pc.Done? then r.pc
    else Ends(caps, r.(pc := Resume(caps, r.pc, replies[0])), replies[1..])
  }

  /** A key that was decremented below zero is set back. */
  function Clamp(k: Key, left: int): seq<Command> {
    if left < 0 then [SetZero(k)] else []
  }

  lemma OneMove(caps: Caps, r: Request, reply: int, replies: seq<int>)
    requires !r.pc.Done?
    ensures var c, q := NextCommand(caps, r), r.(pc := Resume(caps, r.pc, reply));
            && Script(caps, r, [reply] + replies) == (if c.NoCommand? then [] else [c]) + Script(caps, q, replies)
            && Ends(caps, r, [reply] + replies) == Ends(caps, q, replies)
  {
    assert ([reply] + replies)[1..] == replies;
  }

  lemma LeavingScript(caps: Caps, user: nat, window: nat, outcome: Outcome, left: int)
    ensures Script(caps, Request(user, window, Leaving(outcome)), [left, 0]) == [Decr(UserKey(user))] + Clamp(UserKey(user), left)
    ensures Ends(caps, Request(user, window, Leaving(outcome)), [left, 0]) == Done(outcome)
  {
    OneMove(caps, Request(user, window, Leaving(outcome)), left, [0]);
    OneMove(caps, Request(user, window, UserDropped(outcome, left)), 0, []);
    assert [left] + [0] == [left, 0] && [0] + [] == [0];
  }

  lemma RunningScript(caps: Caps, user: nat, window: nat, global: int, left: int)
    ensures Script(caps, Request(user, window, Running), [global, 0, left, 0])
            == [Decr(GlobalKey)] + Clamp(GlobalKey, global) + [Decr(UserKey(user))] + Clamp(UserKey(user), left)
    ensures Ends(caps, Request(user, window, Running), [global, 0, left, 0]) == Done(Served)
  {
    LeavingScript(caps, user, window, Served, left);
    OneMove(caps, Request(user, window, Running), global, [0, left, 0]);
    OneMove(caps, Request(user, window, GlobalDropped(global)), 0, [left, 0]);
    hide Script, Ends;
    assert [global] + [0, left, 0] == [global, 0, left, 0] && [0] + [left, 0] == [0, left, 0];
  }

  /** What follows the reply of the global increment. */
  lemma CountedScript(caps: Caps, user: nat, window: nat, all: int, global: int, left: int)
    ensures var r, u := Request(user, window, GlobalCounted(all)), UserKey(user);
            if all > caps.everyone then
              Script(caps, r, [global, left, 0]) == [Decr(GlobalKey), Decr(u)] + Clamp(u, left)
              && Ends(caps, r, [global, left, 0]) == Done(AllFull)
            else
              Ends(caps, r, [0]) == Running
              && Script(caps, r, [0, global, 0, left, 0])
                 == [Decr(GlobalKey)] + Clamp(GlobalKey, global) + [Decr(u)] + Clamp(u, left)
              && Ends(caps, r, [0, global, 0, left, 0]) == Done(Served)
  {
    var r := Request(user, window, GlobalCounted(all));
    if all > caps.everyone {
      LeavingScript(caps, user, window, AllFull, left);
      OneMove(caps, r, global, [left, 0]);
      assert [global] + [left, 0] == [global, left, 0];
    } else {
      RunningScript(caps, user, window, global, left);
      OneMove(caps, r, 0, []);
      OneMove(caps, r, 0, [global, 0, left, 0]);
      assert [0] + [global, 0, left, 0] == [0, global, 0, left, 0] && [0] + [] == [0];
    }
  }

  /**
   * What a request does, from the replies to its increments. Over the minute's cap it stops at
   * once; over the user's cap it takes its own increment back; over the global cap it takes
   * back both; otherwise it runs, and gives back the global slot first and then the user's.
   */
  lemma RequestFollowsItsReplies(caps: Caps, user: nat, window: nat, minute: int, own: int, all: int, global: int, left: int)
    ensures var r, m, u := Request(user, window, Arrived), MinuteKey(user, window), UserKey(user);
            && (minute > caps.perMinute ==>
                  Script(caps, r, [minute, 0]) == [Incr(m)] && Ends(caps, r, [minute, 0]) == Done(TooMany))
            && (minute <= caps.perMinute && own > caps.perUser ==>
                  Script(caps, r, [minute, own, 0]) == [Incr(m), Incr(u), Decr(u)]
                  && Ends(caps, r, [minute, own, 0]) == Done(UserFull))
            && (minute <= caps.perMinute && own <= caps.perUser && all > caps.everyone ==>
                  Script(caps, r, [minute, own, all, global, left, 0])
                  == [Incr(m), Incr(u), Incr(GlobalKey), Decr(GlobalKey), Decr(u)] + Clamp(u, left)
                  && Ends(caps, r, [minute, own, all, global, left, 0]) == Done(AllFull))
            && (minute <= caps.perMinute && own <= caps.perUser && all <= caps.everyone ==>
                  Ends(caps, r, [minute, own, all, 0]) == Running
                  && Script(caps, r, [minute, own, all, 0, global, 0, left, 0])
                     == [Incr(m), Incr(u), Incr(GlobalKey)] + ([Decr(GlobalKey)] + Clamp(GlobalKey, global)
                                                               + [Decr(u)] + Clamp(u, left))
                  && Ends(caps, r, [minute, own, all, 0, global, 0, left, 0]) == Done(Served))
  {
    hide Script, Ends;
    var r, u := Request(user, window, Arrived), UserKey(user);
    var first, second := r.(pc := MinuteCounted(minute)), r.(pc := UserCounted(own));
    if minute > caps.perMinute {
      OneMove(caps, r, minute, [0]);
      OneMove(caps, first, 0, []);
      NoMoreMoves(caps, r.(pc := Done(TooMany)));
      assert [minute] + [0] == [minute, 0] && [0] + [] == [0];
    } else if own > caps.perUser {
      TwoIncrements(caps, user, window, minute, own, [0]);
      OneMove(caps, second, 0, []);
      NoMoreMoves(caps, r.(pc := Done(UserFull)));
      assert [minute, own] + [0] == [minute, own, 0] && [0] + [] == [0];
    } else {
      CountedScript(caps, user, window, all, global, left);
      if all > caps.everyone {
        OneMove(caps, second, all, [global, left, 0]);
        TwoIncrements(caps, user, window, minute, own, [all] + [global, left, 0]);
        assert [minute, own] + ([all] + [global, left, 0]) == [minute, own, all, global, left, 0];
      } else {
        OneMove(caps, second, all, [0]);
        OneMove(caps, second, all, [0, global, 0, left, 0]);
        TwoIncrements(caps, user, window, minute, own, [all] + [0]);
        TwoIncrements(caps, user, window, minute, own, [all] + [0, global, 0, left, 0]);
        assert [minute, own] + ([all] + [0]) == [minute, own, all, 0];
        assert [minute, own] + ([all] + [0, global, 0, left, 0]) == [minute, own, all, 0, global, 0, left, 0];
      }
    }
  }

  lemma NoMoreMoves(caps: Caps, r: Request)
    ensures Script(caps, r, []) == [] && Ends(caps, r, []) == r.pc
  {
  }

  lemma TwoIncrements(caps: Caps, user: nat, window: nat, minute: int, own: int, replies: seq<int>)
    requires minute <= caps.perMinute
    ensures var r, q := Request(user, window, Arrived), Request(user, window, UserCounted(own));
            && Script(caps, r, [minute, own] + replies)
               == [Incr(MinuteKey(user, window)), Incr(UserKey(user))] + Script(caps, q, replies)
            && Ends(caps, r, [minute, own] + replies) == Ends(caps, q, replies)
  {
    hide Script, Ends;
    OneMove(caps, Request(user, window, Arrived), minute, [own] + replies);
    OneMove(caps, Request(user, window, MinuteCounted(minute)), own, replies);
    assert [minute] + ([own] + replies) == [minute, own] + replies;
  }
}
