/** What a freeze records on its hold, which hold the expiry worker picks, and how a hold ends. */
module LedgerHoldEnds {
  import opened Machine
  import opened Sums
  import opened Ordering
  import opened LedgerModel
  import opened LedgerLots
  import opened LedgerInvariant
  import opened LedgerSafety
  import opened LedgerHolds
  import opened LedgerBatch

  // ----- one step

  /** A posted settlement adds its amount to one of the two totals of its hold. */
  predicate SettledBy(h: Hold, h': Hold, commit: bool, amount: int) {
    && h'.reservation == h.reservation && h'.owner == h.owner && h'.original == h.original && h'.source == h.source
    && h'.expiresAt == h.expiresAt
    && h'.committed == h.committed + (if commit then amount else 0)
    && h'.released == h.released + (if commit then 0 else amount)
  }

  /** How a hold with nothing left ended, when not all of it was committed. */
  predicate EndedAs(h: Hold, expired: bool) {
    Remainder(h) == 0 && h.committed != h.original ==> h.status == if expired then HoldExpired else Released
  }

  predicate IsCommit(cmd: Command) { cmd.DoCommit? }

  function AmountOn(st: State, cmd: Command, hold: nat): int
    requires hold < |st.holds|
  {
    var asked := match cmd case DoCommit(h, _) => h.amount case DoRelease(h, _) => h.amount case _ => 0;
    if asked == 0 then Remainder(st.holds[hold]) else asked
  }

  /** Only a settlement of the hold changes it: by the amount it settles, to the state its action says. */
  lemma HoldMoves(st: State, cmd: Command, hold: nat)
    requires hold < |st.holds|
    ensures hold < |Next(st, cmd).holds|
    ensures if Apply(st, cmd).Posted? && Settles(cmd, hold)
            then SettledBy(st.holds[hold], Next(st, cmd).holds[hold], IsCommit(cmd), AmountOn(st, cmd, hold))
                 && EndedAs(Next(st, cmd).holds[hold], cmd.DoExpireHold?)
            else Next(st, cmd).holds[hold] == st.holds[hold]
  {
    hide Take, SettleParts, FefoOrder, OpenParts, EnsureAccounts, PostTransfer, FindTxn, FindHold, KeyUsed, Sum;
    match cmd
    case DoCredit(t) => PostTransferHolds(st, cmd);
    case DoDebit(t) => PostTransferHolds(st, cmd);
    case DoReverse(r) => PostTransferHolds(st, cmd);
    case DoFreeze(f) =>
    case DoCommit(h, now) =>
    case DoRelease(h, now) =>
    case DoExpireHold(h, now) =>
    case DoExpireLot(l, now) =>
  }

  /** A posted freeze adds one hold with everything it was asked for. */
  lemma FreezeRecords(st: State, f: FreezeCommand)
    requires FreezeAmount(st, f).Posted?
    ensures Next(st, DoFreeze(f)).holds
            == st.holds + [Hold(f.reservation, f.owner, f.amount, 0, 0, HoldActive, f.source, f.holdExpiresAt)]
  {
    hide Take, FefoOrder, EnsureAccounts, FindTxn, FindHold, KeyUsed;
  }

  lemma OnlyFreezesHold(st: State, cmd: Command)
    ensures |Next(st, cmd).holds| == |st.holds| + (if cmd.DoFreeze? && Apply(st, cmd).Posted? then 1 else 0)
  {
    hide Take, SettleParts, FefoOrder, OpenParts, EnsureAccounts, PostTransfer, FindTxn, FindHold, KeyUsed, Sum;
    match cmd
    case DoCredit(t) => PostTransferHolds(st, cmd);
    case DoDebit(t) => PostTransferHolds(st, cmd);
    case DoReverse(r) => PostTransferHolds(st, cmd);
    case DoFreeze(f) =>
    case DoCommit(h, now) =>
    case DoRelease(h, now) =>
    case DoExpireHold(h, now) =>
    case DoExpireLot(l, now) =>
  }

  // ----- how a hold ends

  /** The last posted command of a run that settled the hold. */
  function LastSettler(asset: AssetType, cmds: seq<Command>, hold: nat): Option<Command> {
    if cmds == [] then None
    else
      var was, last := cmds[..|cmds| - 1], cmds[|cmds| - 1];
      if Apply(Run(Empty(asset), was), last).Posted? && Settles(last, hold) then Some(last)
      else LastSettler(asset, was, hold)
  }

  /** Committed, released or expired: decided by the totals and by the last command that settled the hold. */
  ghost predicate EndsRight(h: Hold, last: Option<Command>) {
    && (h.status == HoldExpired <==>
          Remainder(h) == 0 && h.committed != h.original && last.Some? && last.value.DoExpireHold?)
    && (h.status == Released <==>
          Remainder(h) == 0 && h.committed != h.original && last.Some?
              && (last.value.DoRelease? || last.value.DoCommit?))
    && (h.status == Committed <==> h.committed == h.original)
  }

  /** In every run a hold is `expired` exactly when nothing is left of it, not all was committed, and the expiry worker
      settled it last; `released` exactly when a release or a commit did. */
  lemma {:induction false} HoldEnds(asset: AssetType, cmds: seq<Command>, hold: nat)
    requires hold < |Run(Empty(asset), cmds).holds|
    ensures EndsRight(Run(Empty(asset), cmds).holds[hold], LastSettler(asset, cmds, hold))
    ensures Remainder(Run(Empty(asset), cmds).holds[hold]) == 0 ==> LastSettler(asset, cmds, hold).Some?
  {
    var was, last := cmds[..|cmds| - 1], cmds[|cmds| - 1];
    var st := Run(Empty(asset), was);
    RunKeepsInv(asset, cmds);
    RunKeepsInv(asset, was);
    HoldIsOk(Run(Empty(asset), cmds), hold);
    OnlyFreezesHold(st, last);
    hide Inv, Apply, Next;
    if hold < |st.holds| {
      HoldEnds(asset, was, hold);
      HoldIsOk(st, hold);
      HoldMoves(st, last, hold);
    } else {
      assert last.DoFreeze?;
      NewHold(st, last.freeze, hold);
      NotSettledYet(asset, was, hold);
    }
  }

  lemma HoldIsOk(st: State, hold: nat)
    requires Inv(st) && hold < |st.holds|
    ensures HoldStatusOk(st.holds[hold])
  {
  }

  lemma NewHold(st: State, f: FreezeCommand, hold: nat)
    requires |st.holds| <= hold < |Next(st, DoFreeze(f)).holds|
    ensures Next(st, DoFreeze(f)).holds[hold].status == HoldActive
  {
    hide Take, FefoOrder, EnsureAccounts, FindTxn, FindHold, KeyUsed;
  }

  lemma SettlesExisting(st: State, cmd: Command, hold: nat)
    requires Apply(st, cmd).Posted? && Settles(cmd, hold)
    ensures hold < |st.holds|
  {
    hide SettleParts, OpenParts, EnsureAccounts, FindTxn, PostSettlement;
  }

  lemma {:induction false} NotSettledYet(asset: AssetType, cmds: seq<Command>, hold: nat)
    requires hold >= |Run(Empty(asset), cmds).holds|
    ensures LastSettler(asset, cmds, hold).None?
  {
    if cmds != [] {
      var was, last := cmds[..|cmds| - 1], cmds[|cmds| - 1];
      OnlyFreezesHold(Run(Empty(asset), was), last);
      hide Apply, Next;
      NotSettledYet(asset, was, hold);
      if Apply(Run(Empty(asset), was), last).Posted? && Settles(last, hold) {
        SettlesExisting(Run(Empty(asset), was), last, hold);
      }
    }
  }

  // ----- which holds the worker picks

  predicate Carries(h: Hold, f: FreezeCommand) {
    && h.reservation == f.reservation && h.owner == f.owner && h.original == f.amount && h.source == f.source
    && h.expiresAt == f.holdExpiresAt
  }

  lemma {:induction false} StaysFrozen(st: State, f: FreezeCommand, cmds: seq<Command>)
    requires Core(st) && FreezeAmount(st, f).Posted?
    ensures var st' := Run(Next(st, DoFreeze(f)), cmds);
            |st.holds| < |st'.holds| && Carries(st'.holds[|st.holds|], f) && Core(st')
  {
    if cmds == [] {
      FreezeRecords(st, f);
      StepKeepsCore(st, DoFreeze(f));
      assert Run(Next(st, DoFreeze(f)), cmds) == Next(st, DoFreeze(f));
    } else {
      hide Next, Core, Apply;
      var was := cmds[..|cmds| - 1];
      StaysFrozen(st, f, was);
      var mid := Run(Next(st, DoFreeze(f)), was);
      HoldMoves(mid, cmds[|cmds| - 1], |st.holds|);
      StepKeepsCore(mid, cmds[|cmds| - 1]);
    }
  }

  /** Whatever happens after a freeze, its hold carries what was asked for, and the expiry worker picks it exactly when
      it
      was given an expiry, that has come, and something is left of it. */
  lemma FrozenUntil(asset: AssetType, before: seq<Command>, f: FreezeCommand, after: seq<Command>, now: Time)
    requires FreezeAmount(Run(Empty(asset), before), f).Posted?
    ensures var st := Run(Empty(asset), before);
            var st' := Run(Next(st, DoFreeze(f)), after);
            && |st.holds| < |st'.holds| && Carries(st'.holds[|st.holds|], f)
            && (|st.holds| in DueHolds(st'.holds, now) <==>
                  f.holdExpiresAt.Some? && f.holdExpiresAt.value <= now && Remainder(st'.holds[|st.holds|]) > 0)
  {
    var st := Run(Empty(asset), before);
    RunKeepsInv(asset, before);
    StaysFrozen(st, f, after);
    var st' := Run(Next(st, DoFreeze(f)), after);
    assert HoldStatusOk(st'.holds[|st.holds|]);
    hide Core, Run, Next, FreezeAmount;
    match st'.holds[|st.holds|].status
    case HoldActive =>
    case PartiallyCommitted =>
    case Committed =>
    case Released =>
    case HoldExpired =>
  }
}
