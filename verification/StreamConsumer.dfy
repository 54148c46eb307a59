/** The consumer group: entries, the pending list, and consumers that work on a message one await at a time.
    Every await may fail, and a consumer may crash between any two. */
module StreamConsumer {
  import opened StreamFields

  type Id = nat
  type Consumer = nat

  /** What a consumer is waiting for while it works on a message. */
  datatype At =
    | Next
    | Counting(id: Id)
    | Handling(id: Id, count: nat)
    | AckHandled(id: Id, count: nat)
    | ToDlq(id: Id)
    | AckDlq(id: Id)
    | AckShutdown(id: Id)

  datatype Local = Local(todo: seq<Id>, at: At)
  const IDLE := Local([], Next)

  /** How an await ends. A failed acknowledgement may or may not have reached Redis; a delivery count that cannot be
      read counts as 1. */
  datatype Result =
    | Counted(count: nat)
    | HandlerOk
    | HandlerFailed(nonRetryable: bool)
    | DlqOk
    | DlqFailed
    | AckOk
    | AckFailed(applied: bool)

  /** The group as Redis and the outside world see it. The last three fields are history: entries whose handler
      completed, entries handed to the dead-letter callback, and how often the handler was called. */
  datatype Group = Group(
    kinds: seq<Kind>,
    delivered: nat,
    pending: map<Id, nat>,
    acked: set<Id>,
    handled: set<Id>,
    dead: set<Id>,
    runs: map<Id, nat>)

  datatype System = System(group: Group, consumers: map<Consumer, Local>)

  function LocalOf(s: System, c: Consumer): Local {
    if c in s.consumers then s.consumers[c] else IDLE
  }

  function Ack(g: Group, id: Id): Group {
    if id in g.pending then g.(pending := g.pending - {id}, acked := g.acked + {id}) else g
  }

  function RunsOf(g: Group, id: Id): nat {
    if id in g.runs then g.runs[id] else 0
  }

  /** A consumer takes up its next message. */
  function Begin(kinds: seq<Kind>, l: Local): Local
    requires l.at == Next && l.todo != [] && l.todo[0] < |kinds|
  {
    var id := l.todo[0];
    var at := match kinds[id]
              case Shutdown => AckShutdown(id)
              case Valid => Counting(id)
              case _ => ToDlq(id);
    Local(l.todo[1..], at)
  }

  /** A delivery count that cannot be read, and so comes as 0, is taken as 1. */
  function Taken(counted: nat): nat { if counted > 0 then counted else 1 }

  /** An await of the message loop ends. An exception the loop does not catch abandons the rest of the batch. */
  function Resume(maxRetries: nat, l: Local, r: Result): Local {
    match (l.at, r)
    case (Counting(id), Counted(n)) => l.(at := Handling(id, Taken(n)))
    case (Handling(id, n), HandlerOk) => l.(at := AckHandled(id, n))
    case (Handling(id, n), HandlerFailed(nonRetryable)) =>
      if !nonRetryable && n < maxRetries then l.(at := Next) else l.(at := ToDlq(id))
    // The acknowledgement after a completed handler sits in the same try block as the handler.
    case (AckHandled(id, n), AckFailed(_)) => if n < maxRetries then l.(at := Next) else l.(at := ToDlq(id))
    case (ToDlq(id), DlqOk) => l.(at := AckDlq(id))
    case (_, AckOk) => l.(at := Next)
    case _ => IDLE
  }

  predicate Expected(at: At, r: Result) {
    match at
    case Next => false
    case Counting(_) => r.Counted?
    case Handling(_, _) => r.HandlerOk? || r.HandlerFailed?
    case ToDlq(_) => r.DlqOk? || r.DlqFailed?
    case _ => r.AckOk? || r.AckFailed?
  }

  /** What the end of an await means for the group. */
  function Effect(g: Group, at: At, r: Result): Group {
    match (at, r)
    case (Handling(id, _), HandlerOk) => g.(handled := g.handled + {id}, runs := g.runs[id := RunsOf(g, id) + 1])
    case (Handling(id, _), HandlerFailed(_)) => g.(runs := g.runs[id := RunsOf(g, id) + 1])
    case (ToDlq(id), DlqOk) => g.(dead := g.dead + {id})
    case (AckHandled(id, _), AckOk) => Ack(g, id)
    case (AckHandled(id, _), AckFailed(true)) => Ack(g, id)
    case (AckDlq(id), AckOk) => Ack(g, id)
    case (AckDlq(id), AckFailed(true)) => Ack(g, id)
    case (AckShutdown(id), AckOk) => Ack(g, id)
    case (AckShutdown(id), AckFailed(true)) => Ack(g, id)
    case _ => g
  }

  /** Ids in stream order. */
  function Range(a: nat, n: nat): (r: seq<Id>)
    ensures |r| == n && (forall id: Id :: id in r <==> a <= id < a + n)
    ensures forall i :: 0 <= i < n ==> r[i] == a + i
  {
    if n == 0 then [] else Range(a, n - 1) + [a + n - 1]
  }

  /** XREADGROUP moves the next n entries to the pending list with delivery count 1. */
  function Delivered(g: Group, n: nat): Group
    requires g.delivered + n <= |g.kinds|
  {
    g.(delivered := g.delivered + n,
       pending := g.pending + map id | id in Range(g.delivered, n) :: 1)
  }

  /** XAUTOCLAIM adds one to the delivery count of the entries it hands over. */
  function Claimed(g: Group, ids: seq<Id>): Group {
    g.(pending := map id | id in g.pending :: if id in ids then g.pending[id] + 1 else g.pending[id])
  }

  /** A reply can be lost after Redis has acted on the request. */
  datatype Event =
    | Append(kind: Kind)
    | Read(consumer: Consumer, n: nat, lost: bool)
    | Claim(consumer: Consumer, ids: seq<Id>, lost: bool)
    | Start(consumer: Consumer)
    | Await(consumer: Consumer, result: Result)
    | Crash(consumer: Consumer)

  predicate Enabled(s: System, e: Event) {
    match e
    case Append(_) => true
    case Read(c, n, _) => LocalOf(s, c) == IDLE && s.group.delivered + n <= |s.group.kinds|
    case Claim(c, ids, _) => LocalOf(s, c) == IDLE && forall id: Id :: id in ids ==> id in s.group.pending
    case Start(c) => LocalOf(s, c).at == Next && LocalOf(s, c).todo != [] && LocalOf(s, c).todo[0] < |s.group.kinds|
    case Await(c, r) => Expected(LocalOf(s, c).at, r)
    case Crash(_) => true
  }

  function Step(maxRetries: nat, s: System, e: Event): System
    requires Enabled(s, e)
  {
    match e
    case Append(kind) => s.(group := s.group.(kinds := s.group.kinds + [kind]))
    case Read(c, n, lost) =>
      System(Delivered(s.group, n), s.consumers[c := Local(if lost then [] else Range(s.group.delivered, n), Next)])
    case Claim(c, ids, lost) =>
      System(Claimed(s.group, ids), s.consumers[c := Local(if lost then [] else ids, Next)])
    case Start(c) => s.(consumers := s.consumers[c := Begin(s.group.kinds, LocalOf(s, c))])
    case Await(c, r) =>
      System(Effect(s.group, LocalOf(s, c).at, r), s.consumers[c := Resume(maxRetries, LocalOf(s, c), r)])
    case Crash(c) => s.(consumers := s.consumers[c := IDLE])
  }

  ghost predicate LegalRun(maxRetries: nat, s: System, es: seq<Event>)
    decreases |es|
  {
    es == [] || (Enabled(s, es[0]) && LegalRun(maxRetries, Step(maxRetries, s, es[0]), es[1..]))
  }

  ghost function Run(maxRetries: nat, s: System, es: seq<Event>): System
    requires LegalRun(maxRetries, s, es)
    decreases |es|
  {
    if es == [] then s else Run(maxRetries, Step(maxRetries, s, es[0]), es[1..])
  }

  // ---- No loss ----

  /** Delivered entries are pending or acknowledged, and an acknowledged one was handled, handed to the dead-letter
      callback, or a shutdown marker. Only valid entries are handled. */
  ghost predicate Accounted(g: Group) {
    && g.delivered <= |g.kinds|
    && (forall id: Id :: id < g.delivered <==> id in g.pending || id in g.acked)
    && (forall id: Id :: id in g.acked ==> id !in g.pending)
    && (forall id: Id :: id in g.acked ==>
          id < |g.kinds| && (id in g.handled || id in g.dead || g.kinds[id] == Shutdown))
    && (forall id: Id :: id in g.handled ==> id < |g.kinds| && g.kinds[id] == Valid)
    && (forall id: Id :: id in g.dead ==> id < |g.kinds| && g.kinds[id] != Shutdown)
    && (forall id: Id :: id in g.pending ==> g.pending[id] >= 1)
  }

  ghost predicate IsValid(g: Group, id: Id) { id < g.delivered <= |g.kinds| && g.kinds[id] == Valid }
  ghost predicate IsShutdown(g: Group, id: Id) { id < g.delivered <= |g.kinds| && g.kinds[id] == Shutdown }

  /** What a consumer in the middle of a message may rely on. */
  ghost predicate LocalOk(g: Group, l: Local) {
    && (forall id: Id :: id in l.todo ==> id < g.delivered)
    && match l.at
       case Next => true
       case Counting(id) => IsValid(g, id)
       case Handling(id, _) => IsValid(g, id)
       case AckHandled(id, _) => IsValid(g, id) && id in g.handled
       case ToDlq(id) => id < g.delivered && !IsShutdown(g, id)
       case AckDlq(id) => id < g.delivered && id in g.dead
       case AckShutdown(id) => IsShutdown(g, id)
  }

  ghost predicate Inv(s: System) {
    Accounted(s.group) && forall c :: c in s.consumers ==> LocalOk(s.group, s.consumers[c])
  }

  /** A group changes only in ways no consumer has to notice. */
  ghost predicate Grows(g: Group, h: Group) {
    && g.kinds <= h.kinds && g.delivered <= h.delivered <= |h.kinds| && g.handled <= h.handled && g.dead <= h.dead
  }

  lemma LocalOkGrows(g: Group, h: Group, l: Local)
    requires g.delivered <= |g.kinds| && Grows(g, h) && LocalOk(g, l)
    ensures LocalOk(h, l)
  {
  }

  lemma AckKeeps(g: Group, id: Id)
    requires Accounted(g) && id < g.delivered && (id in g.handled || id in g.dead || g.kinds[id] == Shutdown)
    ensures Accounted(Ack(g, id)) && Grows(g, Ack(g, id))
  {
  }

  lemma EffectKeeps(maxRetries: nat, g: Group, l: Local, r: Result)
    requires Accounted(g) && LocalOk(g, l) && Expected(l.at, r)
    ensures Accounted(Effect(g, l.at, r)) && Grows(g, Effect(g, l.at, r))
    ensures LocalOk(Effect(g, l.at, r), Resume(maxRetries, l, r))
  {
    match l.at
    case AckHandled(id, _) => AckKeeps(g, id);
    case AckDlq(id) => AckKeeps(g, id);
    case AckShutdown(id) => AckKeeps(g, id);
    case _ =>
  }

  lemma DeliveredKeeps(g: Group, n: nat)
    requires Accounted(g) && g.delivered + n <= |g.kinds|
    ensures Accounted(Delivered(g, n)) && Grows(g, Delivered(g, n))
    ensures LocalOk(Delivered(g, n), Local(Range(g.delivered, n), Next))
  {
  }

  lemma BeginOk(g: Group, l: Local)
    requires Accounted(g) && LocalOk(g, l) && l.at == Next && l.todo != [] && l.todo[0] < |g.kinds|
    ensures LocalOk(g, Begin(g.kinds, l))
  {
    assert l.todo[0] in l.todo && forall id: Id :: id in l.todo[1..] ==> id in l.todo;
  }

  lemma StepKeeps(maxRetries: nat, s: System, e: Event)
    requires Inv(s) && Enabled(s, e)
    ensures Inv(Step(maxRetries, s, e)) && Grows(s.group, Step(maxRetries, s, e).group)
  {
    var t := Step(maxRetries, s, e);
    match e {
      case Append(_) =>
      case Read(c, n, lost) => DeliveredKeeps(s.group, n);
      case Claim(c, ids, lost) =>
      case Start(c) => BeginOk(s.group, LocalOf(s, c));
      case Await(c, r) => EffectKeeps(maxRetries, s.group, LocalOf(s, c), r);
      case Crash(c) =>
    }
    forall c | c in t.consumers ensures LocalOk(t.group, t.consumers[c]) {
      if c in s.consumers { LocalOkGrows(s.group, t.group, s.consumers[c]); }
    }
  }

  /** For any number of consumers and any failures, lost replies and crashes: every delivered entry is still pending or
      was acknowledged, and an acknowledged entry had its handler complete, was taken by the dead-letter callback, or is
      a shutdown marker. An entry that cannot be decoded is acknowledged only after the dead-letter callback took it. */
  lemma {:induction false} NoLoss(maxRetries: nat, s: System, es: seq<Event>)
    requires Inv(s) && LegalRun(maxRetries, s, es)
    ensures var g := Run(maxRetries, s, es).group;
            && Inv(Run(maxRetries, s, es)) && Grows(s.group, g)
            && (forall id: Id :: id < g.delivered ==>
                  id in g.pending || (id in g.acked && (id in g.handled || id in g.dead || g.kinds[id] == Shutdown)))
            && (forall id: Id :: id in g.acked && g.kinds[id] != Valid && g.kinds[id] != Shutdown ==> id in g.dead)
    decreases |es|
  {
    if es != [] {
      StepKeeps(maxRetries, s, es[0]);
      NoLoss(maxRetries, Step(maxRetries, s, es[0]), es[1..]);
    }
  }

  lemma EmptyGroupOk(kinds: seq<Kind>)
    ensures Inv(System(Group(kinds, 0, map[], {}, {}, {}, map[]), map[]))
  {
  }

  // ---- One message, start to end ----

  /** How each await of one message ends. */
  datatype Outcome = Outcome(counted: nat, handler: Result, handledAck: Result, dlq: Result, lastAck: Result)
  {
    predicate Ok() {
      && (handler.HandlerOk? || handler.HandlerFailed?) && (handledAck.AckOk? || handledAck.AckFailed?)
      && (dlq.DlqOk? || dlq.DlqFailed?) && (lastAck.AckOk? || lastAck.AckFailed?)
    }

    function For(at: At): Result {
      match at
      case Counting(_) => Counted(counted)
      case Handling(_, _) => handler
      case AckHandled(_, _) => handledAck
      case ToDlq(_) => dlq
      case _ => lastAck
    }
  }

  function AwaitsLeft(at: At): nat {
    match at
    case Next => 0
    case Counting(_) => 5
    case Handling(_, _) => 4
    case AckHandled(_, _) => 3
    case ToDlq(_) => 2
    case _ => 1
  }

  /** An exception that leaves the message loop. */
  predicate Throws(at: At, r: Result) {
    (at.ToDlq? && r.DlqFailed?) || ((at.AckDlq? || at.AckShutdown?) && r.AckFailed?)
  }

  /** A consumer left alone with its message: the group afterwards, and whether the loop goes on to the next one. */
  function Drive(maxRetries: nat, g: Group, at: At, o: Outcome): (Group, bool)
    requires o.Ok()
    decreases AwaitsLeft(at)
  {
    if at == Next then (g, true)
    else if Throws(at, o.For(at)) then (Effect(g, at, o.For(at)), false)
    else Drive(maxRetries, Effect(g, at, o.For(at)), Resume(maxRetries, Local([], at), o.For(at)).at, o)
  }

  ghost predicate Scripted(g: Group, todo: seq<Id>, os: seq<Outcome>) {
    |os| == |todo| && (forall i :: 0 <= i < |os| ==> os[i].Ok())
      && (forall i :: 0 <= i < |todo| ==> todo[i] < |g.kinds|)
  }

  function FirstAt(g: Group, id: Id): At
    requires id < |g.kinds|
  {
    Begin(g.kinds, Local([id], Next)).at
  }

  /** A consumer left alone with its batch. */
  ghost function DriveAll(maxRetries: nat, g: Group, todo: seq<Id>, os: seq<Outcome>): (Group, bool)
    requires Scripted(g, todo, os)
    decreases |todo|
  {
    if todo == [] then (g, true)
    else
      DriveKeepsKinds(maxRetries, g, FirstAt(g, todo[0]), os[0]);
      var (h, goesOn) := Drive(maxRetries, g, FirstAt(g, todo[0]), os[0]);
      if goesOn then DriveAll(maxRetries, h, todo[1..], os[1..]) else (h, false)
  }

  lemma {:induction false} DriveKeepsKinds(maxRetries: nat, g: Group, at: At, o: Outcome)
    requires o.Ok()
    ensures Drive(maxRetries, g, at, o).0.kinds == g.kinds
    decreases AwaitsLeft(at)
  {
    if at != Next && !Throws(at, o.For(at)) {
      DriveKeepsKinds(maxRetries, Effect(g, at, o.For(at)), Resume(maxRetries, Local([], at), o.For(at)).at, o);
    }
  }

  // ---- A batch is an uninterrupted run of the machine ----

  lemma {:induction false} RunConcat(maxRetries: nat, s: System, es: seq<Event>, fs: seq<Event>)
    requires LegalRun(maxRetries, s, es) && LegalRun(maxRetries, Run(maxRetries, s, es), fs)
    ensures LegalRun(maxRetries, s, es + fs) && Run(maxRetries, s, es + fs)
            == Run(maxRetries, Run(maxRetries, s, es), fs)
    decreases |es|
  {
    if es == [] {
      assert es + fs == fs;
    } else {
      assert (es + fs)[1..] == es[1..] + fs;
      RunConcat(maxRetries, Step(maxRetries, s, es[0]), es[1..], fs);
    }
  }

  lemma {:induction false} DriveIsRun(maxRetries: nat, s: System, c: Consumer, o: Outcome) returns (es: seq<Event>)
    requires o.Ok() && c in s.consumers
    ensures LegalRun(maxRetries, s, es)
    ensures var l := s.consumers[c];
            var (g, goesOn) := Drive(maxRetries, s.group, l.at, o);
            Run(maxRetries, s, es) == System(g, s.consumers[c := if goesOn then Local(l.todo, Next) else IDLE])
    decreases AwaitsLeft(s.consumers[c].at)
  {
    var l := s.consumers[c];
    if l.at == Next {
      es := [];
      assert s.consumers[c := l] == s.consumers;
    } else {
      var e := Await(c, o.For(l.at));
      var s1 := Step(maxRetries, s, e);
      if Throws(l.at, o.For(l.at)) {
        es := [e];
        assert Run(maxRetries, s1, []) == s1;
      } else {
        var rest := DriveIsRun(maxRetries, s1, c, o);
        es := [e] + rest;
        assert es[1..] == rest;
      }
    }
  }

  /** Working through a batch, as the message loop does, is a run of the machine in which no other consumer moves: the
      theorems about runs hold for it. */
  lemma {:induction false} DriveAllIsRun(maxRetries: nat, s: System, c: Consumer, os: seq<Outcome>)
    returns (es: seq<Event>)
    requires c in s.consumers && s.consumers[c].at == Next && Scripted(s.group, s.consumers[c].todo, os)
    ensures LegalRun(maxRetries, s, es)
    ensures Run(maxRetries, s, es) == System(DriveAll(maxRetries, s.group, s.consumers[c].todo, os).0,
                                             s.consumers[c := IDLE])
    decreases |os|
  {
    var todo := s.consumers[c].todo;
    if todo == [] {
      es := [];
      assert s.consumers[c := IDLE] == s.consumers;
    } else {
      var s1 := Step(maxRetries, s, Start(c));
      var mine := DriveIsRun(maxRetries, s1, c, os[0]);
      var s2 := Run(maxRetries, s1, mine);
      DriveKeepsKinds(maxRetries, s.group, FirstAt(s.group, todo[0]), os[0]);
      assert ([Start(c)] + mine)[1..] == mine;
      assert Run(maxRetries, s, [Start(c)] + mine) == s2;
      if Drive(maxRetries, s.group, FirstAt(s.group, todo[0]), os[0]).1 {
        var rest := DriveAllIsRun(maxRetries, s2, c, os[1..]);
        RunConcat(maxRetries, s, [Start(c)] + mine, rest);
        es := [Start(c)] + mine + rest;
      } else {
        es := [Start(c)] + mine;
      }
    }
  }

  // ---- Redelivery ends ----

  /** Redis and the dead-letter callback work, and the delivery count is the stored one. */
  ghost predicate Faultless(g: Group, id: Id, o: Outcome) {
    && o.Ok() && o.handledAck == AckOk && o.dlq == DlqOk && o.lastAck == AckOk
    && id in g.pending && o.counted == g.pending[id]
  }

  ghost predicate FaultlessBatch(g: Group, todo: seq<Id>, os: seq<Outcome>) {
    && |os| == |todo|
    && (forall i :: 0 <= i < |todo| ==> Faultless(g, todo[i], os[i]))
    && (forall i, j :: 0 <= i < j < |todo| ==> todo[i] != todo[j])
  }

  /** Entries a consumer still holds may be at their last delivery; the others may not. The handler was called at
      most once per delivery, and never more than maxRetries times. */
  ghost predicate Working(maxRetries: nat, g: Group, todo: seq<Id>) {
    && Accounted(g)
    && (forall i :: 0 <= i < |todo| ==> todo[i] in g.pending)
    && (forall id :: id in g.pending ==>
          if id in todo then g.pending[id] <= maxRetries && RunsOf(g, id) < g.pending[id]
          else g.pending[id] < maxRetries && RunsOf(g, id) <= g.pending[id])
    && (forall id: Id :: RunsOf(g, id) <= maxRetries)
    && (forall id :: id in g.runs ==> id < g.delivered)
  }

  /** Deliveries still allowed, over the first n entries of the stream. */
  ghost function Left(maxRetries: nat, pending: map<Id, nat>, n: nat): int {
    if n == 0 then 0
    else Left(maxRetries, pending, n - 1) + if n - 1 in pending then maxRetries - pending[n - 1] else 0
  }

  /** Acknowledgements and the dead-letter callback work; the handler and the delivery count may do as they like. */
  ghost predicate Answered(g: Group, id: Id, o: Outcome) {
    o.Ok() && o.handledAck == AckOk && o.dlq == DlqOk && o.lastAck == AckOk && id in g.pending
  }

  ghost predicate Retries(maxRetries: nat, g: Group, id: Id, o: Outcome)
    requires id < |g.kinds|
  {
    g.kinds[id] == Valid && o.handler == HandlerFailed(false) && Taken(o.counted) < maxRetries
  }

  /** A message stays on the pending list exactly when its handler failed, may be retried, and the count that was read
      leaves deliveries. */
  lemma RetryDecision(maxRetries: nat, g: Group, id: Id, o: Outcome)
    requires Accounted(g) && Answered(g, id, o) && id < |g.kinds|
    ensures var (h, goesOn) := Drive(maxRetries, g, FirstAt(g, id), o);
            && goesOn
            && h.pending == (if Retries(maxRetries, g, id, o) then g.pending else g.pending - {id})
            && h.runs == (if g.kinds[id] == Valid then g.runs[id := RunsOf(g, id) + 1] else g.runs)
            && h.delivered == g.delivered && h.kinds == g.kinds && Accounted(h)
  {
    var at0 := FirstAt(g, id);
    match g.kinds[id] {
      case Shutdown =>
        assert Drive(maxRetries, g, at0, o) == Drive(maxRetries, Ack(g, id), Next, o);
        AckKeeps(g, id);
      case Valid => ValidDecision(maxRetries, g, id, o);
      case _ =>
        DeadLetter(maxRetries, g, id, o);
    }
  }

  lemma ValidDecision(maxRetries: nat, g: Group, id: Id, o: Outcome)
    requires Accounted(g) && Answered(g, id, o) && id < |g.kinds| && g.kinds[id] == Valid
    ensures var (h, goesOn) := Drive(maxRetries, g, FirstAt(g, id), o);
            && goesOn
            && h.pending == (if Retries(maxRetries, g, id, o) then g.pending else g.pending - {id})
            && h.runs == g.runs[id := RunsOf(g, id) + 1]
            && h.delivered == g.delivered && h.kinds == g.kinds && Accounted(h)
  {
    var n, at0 := Taken(o.counted), FirstAt(g, id);
    assert at0 == Counting(id);
    assert Drive(maxRetries, g, at0, o) == Drive(maxRetries, g, Handling(id, n), o);
    var g1 := Effect(g, Handling(id, n), o.handler);
    assert Accounted(g1);
    if o.handler == HandlerOk {
      assert Drive(maxRetries, g, Handling(id, n), o) == Drive(maxRetries, g1, AckHandled(id, n), o);
      assert Drive(maxRetries, g1, AckHandled(id, n), o) == Drive(maxRetries, Ack(g1, id), Next, o);
      AckKeeps(g1, id);
    } else if o.handler == HandlerFailed(false) && n < maxRetries {
      assert Drive(maxRetries, g, Handling(id, n), o) == Drive(maxRetries, g1, Next, o);
    } else {
      assert Drive(maxRetries, g, Handling(id, n), o) == Drive(maxRetries, g1, ToDlq(id), o);
      DeadLetter(maxRetries, g1, id, o);
    }
  }

  lemma DeadLetter(maxRetries: nat, g: Group, id: Id, o: Outcome)
    requires Accounted(g) && o.Ok() && o.dlq == DlqOk && o.lastAck == AckOk && id in g.pending
             && g.kinds[id] != Shutdown
    ensures Drive(maxRetries, g, ToDlq(id), o) == (Ack(g.(dead := g.dead + {id}), id), true)
    ensures Accounted(Ack(g.(dead := g.dead + {id}), id))
  {
    var g1 := g.(dead := g.dead + {id});
    assert Drive(maxRetries, g, ToDlq(id), o) == Drive(maxRetries, g1, AckDlq(id), o);
    assert Drive(maxRetries, g1, AckDlq(id), o) == Drive(maxRetries, Ack(g1, id), Next, o);
    AckKeeps(g1, id);
  }

  lemma {:induction false} LeftShrinks(maxRetries: nat, before: map<Id, nat>, after: map<Id, nat>, n: nat)
    requires forall id :: id in after ==> id in before && after[id] == before[id]
    requires forall id :: id in before ==> before[id] <= maxRetries
    ensures 0 <= Left(maxRetries, after, n) <= Left(maxRetries, before, n)
  {
    if n > 0 { LeftShrinks(maxRetries, before, after, n - 1); }
  }

  lemma MessageKeepsWorking(maxRetries: nat, g: Group, todo: seq<Id>, o: Outcome)
    requires todo != [] && Working(maxRetries, g, todo) && todo[0] !in todo[1..] && Faultless(g, todo[0], o)
    requires todo[0] < |g.kinds|
    ensures Working(maxRetries, Drive(maxRetries, g, FirstAt(g, todo[0]), o).0, todo[1..])
  {
    var id := todo[0];
    var (h, goesOn) := Drive(maxRetries, g, FirstAt(g, id), o);
    RetryDecision(maxRetries, g, id, o);
    hide Drive, FirstAt;
    forall i | 0 <= i < |todo[1..]| ensures todo[1..][i] in h.pending {
      assert todo[1..][i] == todo[i + 1] && todo[i + 1] in todo[1..];
    }
    assert forall k :: k in todo <==> k == id || k in todo[1..];
    assert forall k: Id :: RunsOf(h, k) <= if k == id then RunsOf(g, k) + 1 else RunsOf(g, k);
  }

  /** A faultless batch leaves no entry at its last delivery. */
  lemma {:induction false} BatchRests(maxRetries: nat, g: Group, todo: seq<Id>, os: seq<Outcome>)
    requires Working(maxRetries, g, todo) && FaultlessBatch(g, todo, os) && Scripted(g, todo, os)
    ensures var (h, done) := DriveAll(maxRetries, g, todo, os);
            && done && Working(maxRetries, h, []) && h.delivered == g.delivered && h.kinds == g.kinds
            && (forall id :: id in h.pending ==> id in g.pending && h.pending[id] == g.pending[id])
    decreases |todo|
  {
    if todo != [] {
      var id := todo[0];
      var (h, goesOn) := Drive(maxRetries, g, FirstAt(g, id), os[0]);
      RetryDecision(maxRetries, g, id, os[0]);
      assert id !in todo[1..] by {
        forall i | 0 <= i < |todo[1..]| ensures todo[1..][i] != id { assert todo[i + 1] != todo[0]; }
      }
      MessageKeepsWorking(maxRetries, g, todo, os[0]);
      hide Drive, FirstAt, Working;
      BatchRests(maxRetries, h, todo[1..], os[1..]);
    }
  }

  /** One pass of redelivery: some pending entries are claimed and worked through. */
  ghost predicate GoodRound(g: Group, ids: seq<Id>, os: seq<Outcome>) {
    && ids != [] && (forall i :: 0 <= i < |ids| ==> ids[i] in g.pending)
    && FaultlessBatch(Claimed(g, ids), ids, os)
  }

  ghost function Round(maxRetries: nat, g: Group, ids: seq<Id>, os: seq<Outcome>): Group
    requires Accounted(g) && GoodRound(g, ids, os)
  {
    DriveAll(maxRetries, Claimed(g, ids), ids, os).0
  }

  lemma {:induction false} ClaimSpends(maxRetries: nat, g: Group, ids: seq<Id>, n: nat)
    requires forall id :: id in g.pending ==> g.pending[id] < maxRetries
    ensures 0 <= Left(maxRetries, Claimed(g, ids).pending, n) <= Left(maxRetries, g.pending, n)
    ensures (exists id: Id :: id in ids && id in g.pending && id < n) ==>
              Left(maxRetries, Claimed(g, ids).pending, n) < Left(maxRetries, g.pending, n)
  {
    if n > 0 { ClaimSpends(maxRetries, g, ids, n - 1); }
  }

  lemma ClaimStartsWork(maxRetries: nat, g: Group, ids: seq<Id>)
    requires Working(maxRetries, g, []) && forall i :: 0 <= i < |ids| ==> ids[i] in g.pending
    ensures Working(maxRetries, Claimed(g, ids), ids)
  {
    assert forall id: Id :: RunsOf(Claimed(g, ids), id) == RunsOf(g, id);
  }

  /** Each pass uses up at least one of the deliveries left, and leaves every pending entry
      below maxRetries deliveries. */
  lemma RoundDecreases(maxRetries: nat, g: Group, ids: seq<Id>, os: seq<Outcome>)
    requires Working(maxRetries, g, []) && GoodRound(g, ids, os)
    ensures Working(maxRetries, Round(maxRetries, g, ids, os), [])
            && Round(maxRetries, g, ids, os).delivered == g.delivered
    ensures 0 <= Left(maxRetries, Round(maxRetries, g, ids, os).pending, g.delivered) < Left(maxRetries, g.pending,
            g.delivered)
  {
    var c := Claimed(g, ids);
    ClaimStartsWork(maxRetries, g, ids);
    ClaimSpends(maxRetries, g, ids, g.delivered);
    assert ids[0] in ids && ids[0] in g.pending && ids[0] < g.delivered;
    BatchRests(maxRetries, c, ids, os);
    LeftShrinks(maxRetries, c.pending, Round(maxRetries, g, ids, os).pending, g.delivered);
  }

  lemma ReadStartsWork(maxRetries: nat, g: Group, n: nat)
    requires maxRetries >= 1 && Working(maxRetries, g, []) && g.delivered + n <= |g.kinds|
    ensures var todo := Range(g.delivered, n);
            && Working(maxRetries, Delivered(g, n), todo)
            && forall i :: 0 <= i < n ==> todo[i] < |Delivered(g, n).kinds|
  {
    DeliveredKeeps(g, n);
    var h, todo := Delivered(g, n), Range(g.delivered, n);
    assert forall id: Id :: RunsOf(h, id) == RunsOf(g, id);
    assert forall id: Id :: id >= g.delivered ==> RunsOf(g, id) == 0;
    forall i | 0 <= i < n ensures todo[i] in h.pending { assert todo[i] in todo; }
  }

  /** First deliveries: a faultless read leaves the group at rest again. */
  lemma FirstDelivery(maxRetries: nat, g: Group, n: nat, os: seq<Outcome>)
    requires maxRetries >= 1 && Working(maxRetries, g, []) && g.delivered + n <= |g.kinds|
    requires FaultlessBatch(Delivered(g, n), Range(g.delivered, n), os)
    ensures var todo := Range(g.delivered, n);
            && Scripted(Delivered(g, n), todo, os)
            && Working(maxRetries, DriveAll(maxRetries, Delivered(g, n), todo, os).0, [])
  {
    ReadStartsWork(maxRetries, g, n);
    hide Delivered, Working;
    BatchRests(maxRetries, Delivered(g, n), Range(g.delivered, n), os);
  }

  // ---- With counts that may be wrong ----

  /** A message is claimed and worked on again. */
  ghost function Redelivered(maxRetries: nat, g: Group, id: Id, o: Outcome): Group
    requires o.Ok() && id < |g.kinds|
  {
    Drive(maxRetries, Claimed(g, [id]), FirstAt(g, id), o).0
  }

  /** Again and again, until it has left the pending list. */
  ghost function AfterDeliveries(maxRetries: nat, g: Group, id: Id, os: seq<Outcome>): Group
    requires id < |g.kinds| && forall i :: 0 <= i < |os| ==> os[i].Ok()
    decreases |os|
  {
    if os == [] || id !in g.pending then g
    else
      DriveKeepsKinds(maxRetries, Claimed(g, [id]), FirstAt(g, id), os[0]);
      AfterDeliveries(maxRetries, Redelivered(maxRetries, g, id, os[0]), id, os[1..])
  }

  ghost predicate AnsweredAll(os: seq<Outcome>) {
    forall i :: 0 <= i < |os| ==>
      os[i].Ok() && os[i].handledAck == AckOk && os[i].dlq == DlqOk && os[i].lastAck == AckOk
  }

  lemma RedeliveredOnce(maxRetries: nat, g: Group, id: Id, o: Outcome)
    requires Accounted(g) && Answered(g, id, o) && id < |g.kinds|
    ensures var h := Redelivered(maxRetries, g, id, o);
            Accounted(h) && h.kinds == g.kinds && (id in h.pending <==> Retries(maxRetries, g, id, o))
  {
    var c := Claimed(g, [id]);
    assert Accounted(c);
    RetryDecision(maxRetries, c, id, o);
  }

  /** Over any number of deliveries, whatever counts are read: a message is still pending exactly when it is a valid one
      and every delivery so far ended in a retryable failure with a count below maxRetries. */
  lemma {:induction false} StaysPendingIff(maxRetries: nat, g: Group, id: Id, os: seq<Outcome>)
    requires Accounted(g) && id in g.pending && id < |g.kinds| && AnsweredAll(os)
    ensures id in AfterDeliveries(maxRetries, g, id, os).pending <==>
              forall i :: 0 <= i < |os| ==> Retries(maxRetries, g, id, os[i])
    decreases |os|
  {
    if os != [] {
      var h := Redelivered(maxRetries, g, id, os[0]);
      RedeliveredOnce(maxRetries, g, id, os[0]);
      if id in h.pending {
        StaysPendingIff(maxRetries, h, id, os[1..]);
        assert forall i :: 0 < i < |os| ==> os[1..][i - 1] == os[i];
        hide Redelivered;
      } else {
        assert AfterDeliveries(maxRetries, h, id, os[1..]) == h;
      }
    }
  }

  /** The count matters: with counts that cannot be read, a message whose handler keeps failing never leaves, however
      often it is delivered, unless a single delivery is all that is allowed. */
  lemma UnreadableCountIff(maxRetries: nat, g: Group, id: Id, os: seq<Outcome>)
    requires Accounted(g) && id in g.pending && id < |g.kinds| && g.kinds[id] == Valid && AnsweredAll(os) && os != []
    requires forall i :: 0 <= i < |os| ==> os[i].counted <= 1 && os[i].handler == HandlerFailed(false)
    ensures id in AfterDeliveries(maxRetries, g, id, os).pending <==> maxRetries >= 2
  {
    StaysPendingIff(maxRetries, g, id, os);
    if maxRetries < 2 { assert !Retries(maxRetries, g, id, os[0]); }
  }

  // ---- The read loop ----

  /** What happens between two moments at which the consumer holds nothing: entries are appended, the next n are read
      and worked through, or pending ones are claimed and worked through. */
  datatype Turn =
    | Appended(kind: Kind)
    | ReadNext(n: nat, outcomes: seq<Outcome>)
    | Reclaimed(ids: seq<Id>, outcomes: seq<Outcome>)

  /** One consumer, no faults, true delivery counts, and a claim that found something. */
  ghost predicate GoodTurn(g: Group, t: Turn) {
    match t
    case Appended(_) => true
    case ReadNext(n, os) =>
      g.delivered + n <= |g.kinds| && FaultlessBatch(Delivered(g, n), Range(g.delivered, n), os)
    case Reclaimed(ids, os) => Accounted(g) && GoodRound(g, ids, os)
  }

  ghost function TakeTurn(maxRetries: nat, g: Group, t: Turn): Group
    requires GoodTurn(g, t) && Accounted(g)
  {
    match t
    case Appended(kind) => g.(kinds := g.kinds + [kind])
    case ReadNext(n, os) =>
      DeliveredKeeps(g, n);
      DriveAll(maxRetries, Delivered(g, n), Range(g.delivered, n), os).0
    case Reclaimed(ids, os) => Round(maxRetries, g, ids, os)
  }

  ghost predicate GoodTurns(maxRetries: nat, g: Group, turns: seq<Turn>)
    decreases |turns|
  {
    turns == [] ||
    (Accounted(g) && GoodTurn(g, turns[0]) && GoodTurns(maxRetries, TakeTurn(maxRetries, g, turns[0]), turns[1..]))
  }

  ghost function AfterTurns(maxRetries: nat, g: Group, turns: seq<Turn>): Group
    requires GoodTurns(maxRetries, g, turns)
    decreases |turns|
  {
    if turns == [] then g else AfterTurns(maxRetries, TakeTurn(maxRetries, g, turns[0]), turns[1..])
  }

  function Reclaims(turns: seq<Turn>): nat {
    if turns == [] then 0 else (if turns[0].Reclaimed? then 1 else 0) + Reclaims(turns[1..])
  }

  /** Reading n entries adds the deliveries they may still have after their first. */
  lemma {:induction false} ReadAdds(maxRetries: nat, g: Group, n: nat, k: nat)
    requires Accounted(g) && g.delivered + n <= |g.kinds| && k <= n
    ensures Left(maxRetries, Delivered(g, n).pending, g.delivered + k)
            == Left(maxRetries, g.pending, g.delivered) + k * (maxRetries - 1)
    decreases k
  {
    hide Delivered, Accounted, Range;
    ReadCounts(g, n);
    var h := Delivered(g, n);
    if k == 0 {
      hide Left;
      SameLeft(maxRetries, g.pending, h.pending, g.delivered);
    } else {
      ReadAdds(maxRetries, g, n, k - 1);
      assert h.pending[g.delivered + k - 1] == 1;
      SpentAdds(0, 1, k, maxRetries - 1);
    }
  }

  lemma ReadCounts(g: Group, n: nat)
    requires Accounted(g) && g.delivered + n <= |g.kinds|
    ensures var h := Delivered(g, n);
            && (forall id: Id :: id < g.delivered ==>
                (id in h.pending <==> id in g.pending) && (id in g.pending ==> h.pending[id] == g.pending[id]))
            && (forall id: Id :: g.delivered <= id < g.delivered + n ==> id in h.pending && h.pending[id] == 1)
  {
  }

  lemma {:induction false} SameLeft(maxRetries: nat, a: map<Id, nat>, b: map<Id, nat>, n: nat)
    requires forall id: Id :: id < n ==> (id in a <==> id in b) && (id in a ==> a[id] == b[id])
    ensures Left(maxRetries, a, n) == Left(maxRetries, b, n)
  {
    if n > 0 { SameLeft(maxRetries, a, b, n - 1); }
  }

  lemma WorkingIsAccounted(maxRetries: nat, g: Group, todo: seq<Id>)
    requires Working(maxRetries, g, todo)
    ensures Accounted(g) && forall id :: id in g.pending ==> g.pending[id] <= maxRetries
  {
  }

  lemma ReadMoves(g: Group, n: nat)
    requires g.delivered + n <= |g.kinds|
    ensures Delivered(g, n).delivered == g.delivered + n
  {
  }

  lemma ReadKeeps(maxRetries: nat, g: Group, n: nat, os: seq<Outcome>)
    requires maxRetries >= 1 && Working(maxRetries, g, []) && GoodTurn(g, ReadNext(n, os))
    ensures var h := TakeTurn(maxRetries, g, ReadNext(n, os));
            && Working(maxRetries, h, []) && h.delivered == g.delivered + n
            && Left(maxRetries, h.pending, h.delivered) <= Left(maxRetries, g.pending, g.delivered)
               + n * (maxRetries - 1)
  {
    hide DriveAll, FaultlessBatch, Left, Working, Accounted, Delivered;
    var d := Delivered(g, n);
    WorkingIsAccounted(maxRetries, g, []);
    ReadStartsWork(maxRetries, g, n);
    FirstDelivery(maxRetries, g, n, os);
    ReadAdds(maxRetries, g, n, n);
    BatchRests(maxRetries, d, Range(g.delivered, n), os);
    WorkingIsAccounted(maxRetries, d, Range(g.delivered, n));
    assert d.delivered == g.delivered + n by { ReadMoves(g, n); }
    LeftShrinks(maxRetries, d.pending, TakeTurn(maxRetries, g, ReadNext(n, os)).pending, g.delivered + n);
  }

  /** A turn leaves the group at rest, and a claim spends deliveries that only a read brings in. */
  lemma TurnKeeps(maxRetries: nat, g: Group, t: Turn)
    requires maxRetries >= 1 && Working(maxRetries, g, []) && GoodTurn(g, t)
    ensures var h := TakeTurn(maxRetries, g, t);
            && Working(maxRetries, h, []) && h.delivered >= g.delivered
            && Left(maxRetries, h.pending, h.delivered) + (if t.Reclaimed? then 1 else 0)
               <= Left(maxRetries, g.pending, g.delivered) + (h.delivered - g.delivered) * (maxRetries - 1)
  {
    hide Left, Working;
    match t
    case Appended(kind) => AppendKeeps(maxRetries, g, kind);
    case ReadNext(n, os) => ReadKeeps(maxRetries, g, n, os);
    case Reclaimed(ids, os) => WorkingIsAccounted(maxRetries, g, []); RoundDecreases(maxRetries, g, ids, os);
  }

  lemma AppendKeeps(maxRetries: nat, g: Group, kind: Kind)
    requires Working(maxRetries, g, [])
    ensures Working(maxRetries, g.(kinds := g.kinds + [kind]), [])
  {
    var h := g.(kinds := g.kinds + [kind]);
    assert forall id: Id :: id < |g.kinds| ==> h.kinds[id] == g.kinds[id];
    assert forall id: Id :: RunsOf(h, id) == RunsOf(g, id);
  }

  /** Redelivery ends: from any moment of rest, over any turns, the claims that found something are no more than the
      deliveries left at the start and those that entries read on the way brought in. */
  lemma {:induction false} RedeliveryEnds(maxRetries: nat, g: Group, turns: seq<Turn>)
    requires maxRetries >= 1 && Working(maxRetries, g, []) && GoodTurns(maxRetries, g, turns)
    ensures var h := AfterTurns(maxRetries, g, turns);
            && Working(maxRetries, h, []) && h.delivered >= g.delivered
            && Left(maxRetries, h.pending, h.delivered) + Reclaims(turns)
               <= Left(maxRetries, g.pending, g.delivered) + (h.delivered - g.delivered) * (maxRetries - 1)
            && 0 <= Left(maxRetries, h.pending, h.delivered)
    decreases |turns|
  {
    hide Working, GoodTurn, TakeTurn, Left, Accounted;
    if turns == [] {
      WorkingIsAccounted(maxRetries, g, []);
      LeftShrinks(maxRetries, g.pending, g.pending, g.delivered);
    } else {
      WorkingIsAccounted(maxRetries, g, []);
      var t := TakeTurn(maxRetries, g, turns[0]);
      TurnKeeps(maxRetries, g, turns[0]);
      RedeliveryEnds(maxRetries, t, turns[1..]);
      SpentAdds(g.delivered, t.delivered, AfterTurns(maxRetries, t, turns[1..]).delivered, maxRetries - 1);
    }
  }

  lemma SpentAdds(a: nat, b: nat, c: nat, m: int)
    requires a <= b <= c
    ensures (c - a) * m == (c - b) * m + (b - a) * m
  {
  }

  ghost function NewGroup(kinds: seq<Kind>): Group { Group(kinds, 0, map[], {}, {}, {}, map[]) }

  /** The loop of one consumer, from a new group, over any appends, reads and claims without faults: after every turn
      each entry read is acknowledged or has had fewer than maxRetries deliveries, its handler ran at most once per
      delivery and at most maxRetries times, and claims that found something were at most maxRetries - 1 for each entry
      read. */
  lemma LoopTerminates(maxRetries: nat, kinds: seq<Kind>, turns: seq<Turn>, id: Id)
    requires maxRetries >= 1 && GoodTurns(maxRetries, NewGroup(kinds), turns)
    ensures var g := AfterTurns(maxRetries, NewGroup(kinds), turns);
            && (id < g.delivered ==>
                  || id in g.acked
                  || (id in g.pending && 1 <= g.pending[id] < maxRetries && RunsOf(g, id) <= g.pending[id]))
            && RunsOf(g, id) <= maxRetries
            && Reclaims(turns) <= g.delivered * (maxRetries - 1)
  {
    hide Working, Accounted, GoodTurns, AfterTurns, Left, Reclaims;
    var g0 := NewGroup(kinds);
    NewGroupRests(maxRetries, kinds);
    RedeliveryEnds(maxRetries, g0, turns);
    RestMeans(maxRetries, AfterTurns(maxRetries, g0, turns), id);
  }

  lemma NewGroupRests(maxRetries: nat, kinds: seq<Kind>)
    ensures Working(maxRetries, NewGroup(kinds), []) && NewGroup(kinds).delivered == 0
    ensures Left(maxRetries, NewGroup(kinds).pending, 0) == 0
  {
  }

  lemma RestMeans(maxRetries: nat, g: Group, id: Id)
    requires Working(maxRetries, g, [])
    ensures id < g.delivered ==>
              id in g.acked || (id in g.pending && 1 <= g.pending[id] < maxRetries && RunsOf(g, id) <= g.pending[id])
    ensures RunsOf(g, id) <= maxRetries
  {
  }
}
