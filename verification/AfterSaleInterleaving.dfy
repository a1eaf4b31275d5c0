/** Applications beside other after-sale steps. An application reads its claims from the snapshot its transaction took
    before it got the order's lock, so it may be checked against cases that are no longer current; everything else
    works on locked rows and is one step. */
module AfterSaleInterleaving {
  import opened Sums
  import opened Machine
  import opened AfterSaleModel
  import opened AfterSaleRefunds
  import opened AfterSaleClaims

  /** An application between its snapshot and its insert. */
  datatype Application = Application(seen: seq<Case>, kind: Kind, resolution: Resolution, requests: seq<LineRequest>,
                                     includeFee: bool, review: bool)

  datatype System = System(st: State, open: seq<Option<Application>>)

  datatype Event =
    | Begin(kind: Kind, resolution: Resolution, requests: seq<LineRequest>, includeFee: bool, review: bool)
    | Insert(application: nat)
    | GiveUp(application: nat)
    | Other(cmd: Command)

  function Outcome(s: System, a: Application): AfterSaleModel.Outcome {
    CreateSeeing(s.st, a.seen, a.kind, a.resolution, a.requests, a.includeFee, a.review)
  }

  function CaseOf(a: Application): Case { NewCase(a.kind, a.resolution, a.requests, a.includeFee, a.review) }

  predicate Waiting(s: System, i: nat) { i < |s.open| && s.open[i].Some? }

  function Close(s: System, i: nat): System
    requires i < |s.open|
  {
    s.(open := s.open[i := None])
  }

  function Fire(s: System, e: Event): System {
    match e
    case Begin(kind, resolution, requests, includeFee, review) =>
      s.(open := s.open + [Some(Application(s.st.cases, kind, resolution, requests, includeFee, review))])
    case Insert(i) =>
      if !Waiting(s, i) then s
      else
        (match Outcome(s, s.open[i].value)
         case Accepted(st') => Close(s, i).(st := st')
         case _ => Close(s, i))
    case GiveUp(i) => if Waiting(s, i) then Close(s, i) else s
    case Other(cmd) => if cmd.DoCreate? then s else s.(st := Next(s.st, cmd))
  }

  function Trace(s: System, events: seq<Event>): System {
    if events == [] then s else Fire(Trace(s, events[..|events| - 1]), events[|events| - 1])
  }

  function Start(order: Order, paymentAmount: int): System { System(Fresh(order, paymentAmount), []) }

  // ----- the payment cap survives every interleaving

  predicate SeenOk(order: Order, open: seq<Option<Application>>) {
    forall i :: 0 <= i < |open| && open[i].Some? ==>
          CasesOk(order, open[i].value.seen) && AllClaimsOk(order, open[i].value.seen)
  }

  ghost predicate SystemOk(s: System) {
    RefundsOk(s.st) && AllClaimsOk(s.st.order, s.st.cases) && SeenOk(s.st.order, s.open)
  }

  lemma InsertKeeps(s: System, i: nat)
    requires SystemOk(s) && Waiting(s, i) && Outcome(s, s.open[i].value).Accepted?
    ensures SystemOk(Fire(s, Insert(i)))
    ensures Fire(s, Insert(i)).st.cases == s.st.cases + [CaseOf(s.open[i].value)]
            && Fire(s, Insert(i)).st.order == s.st.order
  {
    var a := s.open[i].value;
    GoodItems(s.st);
    CreateKeeps(s.st, a.seen, a.kind, a.resolution, a.requests, a.includeFee, a.review);
    InsertedCases(s.st, a.seen, a.kind, a.resolution, a.requests, a.includeFee, a.review);
    NewClaimOk(s.st, a.seen, a.kind, a.resolution, a.requests, a.includeFee, a.review);
    AllClaimsSnoc(s.st.order, s.st.cases, CaseOf(a));
    hide RefundsOk, AllClaimsOk, CasesOk, CreateSeeing;
  }

  /** Claims keep their shape in every step, appeals included. */
  lemma StepKeepsShape(st: State, cmd: Command)
    requires RefundsOk(st) && AllClaimsOk(st.order, st.cases) && !cmd.DoCreate?
    ensures AllClaimsOk(st.order, Next(st, cmd).cases)
  {
    GoodItems(st);
    hide RefundsOk, SystemReturn, AllClaimsOk;
    if Apply(st, cmd).Accepted? {
      match cmd
      case DoSystemReturn(source) => SystemKeepsShape(st, source);
      case DoAppeal(c) => AppealKeepsShape(st, c);
      case _ =>
        OtherStepsKeep(st, cmd);
        KeepingKeepsShape(st.order, st.cases, Next(st, cmd).cases);
    }
  }

  lemma KeepingKeepsShape(order: Order, cases: seq<Case>, cases': seq<Case>)
    requires AllClaimsOk(order, cases) && AllKeepClaims(cases, cases')
    ensures AllClaimsOk(order, cases')
  {
    forall c | 0 <= c < |cases'| ensures ClaimOk(order, cases'[c]) {
      ClaimStays(order, cases[c], cases'[c]);
    }
  }

  lemma AppealKeepsShape(st: State, c: nat)
    requires AllClaimsOk(st.order, st.cases) && Appeal(st, c).Accepted?
    ensures AllClaimsOk(st.order, Appeal(st, c).state.cases)
  {
    AppealedCases(st, c);
    assert ClaimOk(st.order, st.cases[c]);
  }

  lemma SystemKeepsShape(st: State, source: nat)
    requires AllClaimsOk(st.order, st.cases) && SystemReturn(st, source).Accepted?
    requires forall i :: 0 <= i < |st.order.items| ==> GoodItem(st.order.items[i])
    ensures AllClaimsOk(st.order, SystemReturn(st, source).state.cases)
  {
    NobodyClaims(st);
    SystemKeepsClaims(st, source);
  }

  /** Without active cases nothing is claimed. */
  lemma NobodyClaims(st: State)
    requires AllClaimsOk(st.order, st.cases) && !ActiveConflicts(st.cases)
    requires forall i :: 0 <= i < |st.order.items| ==> GoodItem(st.order.items[i])
    ensures ClaimsOk(st.order, st.cases)
  {
    forall item: nat | item < |st.order.items| ensures ActiveQuantity(st.cases, item) <= st.order.items[item].quantity {
      InactiveClaimsNothing(st.cases, item);
    }
  }

  lemma FireKeeps(s: System, e: Event)
    requires SystemOk(s)
    ensures SystemOk(Fire(s, e)) && Fire(s, e).st.order == s.st.order
  {
    match e
    case Begin(_, _, _, _, _) => SoundCases(s.st); hide RefundsOk, AllClaimsOk, CasesOk;
    case Insert(i) =>
      if Waiting(s, i) && Outcome(s, s.open[i].value).Accepted? {
        InsertKeeps(s, i);
      } else {
        hide RefundsOk, AllClaimsOk, CasesOk, CreateSeeing;
      }
    case GiveUp(i) => hide RefundsOk, AllClaimsOk, CasesOk;
    case Other(cmd) =>
      if !cmd.DoCreate? {
        StepKeepsRefunds(s.st, cmd);
        StepKeepsShape(s.st, cmd);
        OrderStays(s.st, cmd);
        hide RefundsOk, AllClaimsOk, CasesOk, Next;
      }
  }

  /** However applications overlap with each other and with anything else, refunded plus reserved stays within the
      payment and the refund rows stay in order. */
  lemma {:induction false} TraceKeepsRefunds(order: Order, paymentAmount: int, events: seq<Event>)
    requires BoundedOrder(order, paymentAmount)
    ensures SystemOk(Trace(Start(order, paymentAmount), events))
            && Trace(Start(order, paymentAmount), events).st.order == order
  {
    if events != [] {
      hide SystemOk, Fire;
      TraceKeepsRefunds(order, paymentAmount, events[..|events| - 1]);
      FireKeeps(Trace(Start(order, paymentAmount), events[..|events| - 1]), events[|events| - 1]);
    }
  }

  // ----- exactly when the claim caps survive

  /** The step would pass the claim tests on the current cases: those of an application it accepts, and those an
      appeal leaves out. */
  predicate PassesNow(s: System, e: Event) {
    match e
    case Begin(_, _, _, _, _) => true
    case GiveUp(_) => true
    case Insert(i) =>
      Waiting(s, i) && Outcome(s, s.open[i].value).Accepted? ==>
            ClaimFits(s.st.order, s.st.cases, CaseOf(s.open[i].value))
    case Other(cmd) =>
      cmd.DoAppeal? && Appeal(s.st, cmd.c).Accepted? && cmd.c < |s.st.cases| ==>
            ClaimFits(s.st.order, s.st.cases, s.st.cases[cmd.c])
  }

  predicate Capped(s: System) { ClaimsOk(s.st.order, s.st.cases) }

  lemma StepKeepsCaps(s: System, e: Event)
    requires SystemOk(s) && Capped(s)
    ensures Capped(Fire(s, e)) <==> PassesNow(s, e)
  {
    GoodItems(s.st);
    match e
    case Begin(_, _, _, _, _) =>
    case GiveUp(_) =>
    case Insert(i) =>
      if Waiting(s, i) && Outcome(s, s.open[i].value).Accepted? {
        var a := s.open[i].value;
        InsertKeepsCaps(s.st, a.seen, a.kind, a.resolution, a.requests, a.includeFee, a.review);
        InsertKeeps(s, i);
      }
      hide RefundsOk, CreateSeeing, ClaimsOk, ClaimFits;
    case Other(cmd) =>
      OrderStays(s.st, cmd);
      hide RefundsOk, ClaimsOk, ClaimFits, CreateSeeing, SystemReturn, Appeal;
      if cmd.DoAppeal? {
        if Appeal(s.st, cmd.c).Accepted? { AppealKeepsCaps(s.st, cmd.c); }
      } else if !cmd.DoCreate? {
        StepKeepsClaims(s.st, cmd);
      }
  }

  /** After every step of the run. */
  predicate CappedThroughout(s: System, events: seq<Event>) {
    Capped(Trace(s, events)) && (events != [] ==> CappedThroughout(s, events[..|events| - 1]))
  }

  /** At its own moment, every step of the run. */
  predicate AllPass(s: System, events: seq<Event>) {
    events != [] ==>
      AllPass(s, events[..|events| - 1]) && PassesNow(Trace(s, events[..|events| - 1]), events[|events| - 1])
  }

  /** The claim caps hold throughout a run exactly when every accepted application and every appeal in it would also
      pass the application's tests on the cases of its own moment. */
  lemma {:induction false} CapsHoldExactly(order: Order, paymentAmount: int, events: seq<Event>)
    requires BoundedOrder(order, paymentAmount)
    ensures CappedThroughout(Start(order, paymentAmount), events) <==> AllPass(Start(order, paymentAmount), events)
  {
    var s := Start(order, paymentAmount);
    if events == [] {
      FreshIsCapped(order, paymentAmount);
    } else {
      hide Capped, PassesNow, Fire, SystemOk;
      var so := events[..|events| - 1];
      CapsHoldExactly(order, paymentAmount, so);
      TraceKeepsRefunds(order, paymentAmount, so);
      if Capped(Trace(s, so)) {
        StepKeepsCaps(Trace(s, so), events[|events| - 1]);
      }
    }
  }

  lemma FreshIsCapped(order: Order, paymentAmount: int)
    requires BoundedOrder(order, paymentAmount)
    ensures Capped(Start(order, paymentAmount))
  {
    var top: nat :| TopTotal(order, paymentAmount, top);
  }

  /** If since its snapshot nobody claimed anything on the order, an accepted application passes its tests now. */
  lemma FreshSnapshotPasses(s: System, i: nat)
    requires SystemOk(s) && Waiting(s, i) && AllKeepClaims(s.open[i].value.seen, s.st.cases)
    ensures PassesNow(s, Insert(i))
  {
    var a := s.open[i].value;
    if Outcome(s, a).Accepted? {
      GoodItems(s.st);
      NewClaimOk(s.st, a.seen, a.kind, a.resolution, a.requests, a.includeFee, a.review);
      assert AllClaimsOk(s.st.order, a.seen);
      hide SystemOk, RefundsOk, AllClaimsOk, CreateSeeing;
      StillFitsLater(s.st.order, a.seen, s.st.cases, CaseOf(a));
    }
  }

  /** What fits the claims of a snapshot fits the same claims later. */
  lemma StillFitsLater(order: Order, seen: seq<Case>, cases: seq<Case>, row: Case)
    requires AllKeepClaims(seen, cases) && AllClaimsOk(order, seen) && ClaimFits(order, seen, row)
    ensures ClaimFits(order, cases, row)
  {
    forall k | 0 <= k < |row.lines| ensures StillFits(order, cases, row.lines[k].item, row.lines[k].quantity) {
      assert StillFits(order, seen, row.lines[k].item, row.lines[k].quantity);
      QuantitiesShrink(order, seen, cases, row.lines[k].item);
    }
    hide AllFit, StillFits;
    if FeeClaimed(cases) {
      var c :| 0 <= c < |cases| && cases[c].includeFee && Active(cases[c]);
      assert KeepsClaims(seen[c], cases[c]);
    }
  }
}
