/** The four-step ownership protocol of `src/relations/mod.rs`. An account keeps a record of optional
    fields in memory while online and a copy in the store. The handlers are proved to move through
    four shapes only, and the properties below are about that four-shape machine. */
module Ownership {
  import opened Options

  const OWNERSHIP_DELAY_MS := 604_800_000
  const NOTES_MAX := 4000

  // ----- The four-state machine -----

  datatype Bond =
    | NoBond
    | Offered(holder: int)
    | Trial(holder: int, name: string, start: int, ending: bool)
    | Full(holder: int, name: string, start: int, notes: Option<string>)

  /** The member who holds an account, in trial or in full. */
  function Holder(b: Bond): Option<int> {
    match b
    case Trial(holder, _, _, _) => Some(holder)
    case Full(holder, _, _, _) => Some(holder)
    case _ => None
  }

  /** What survives a logout: offers live in memory only. */
  function Strip(b: Bond): Bond {
    match b
    case Offered(_) => NoBond
    case Trial(holder, name, start, _) => Trial(holder, name, start, false)
    case _ => b
  }

  datatype Action = Break | Release | UpdateNotes | Propose | Accept | Query

  /** What a request meets: the members in the actor's room, if any; whether the target has the actor
      on their black list; the actor's difficulty; the target's name; the notes sent; the clock. */
  datatype Env = Env(room: Option<set<int>>, blacklisted: bool, difficulty: int, targetName: string,
                     notes: Option<string>, now: int)

  /** Every account's bond, and who is online. */
  datatype Desk = Desk(bonds: map<int, Bond>, online: set<int>)

  function NotesKept(notes: Option<string>): Option<string> {
    if notes.None? || notes.value == "" then None
    else if |notes.value| > NOTES_MAX then Some(notes.value[..NOTES_MAX])
    else notes
  }

  predicate MayBreak(b: Bond, difficulty: int, now: int) {
    match b
    case Trial(_, _, _, _) => true
    case Full(_, _, start, _) => start + OWNERSHIP_DELAY_MS <= now && difficulty <= 2
    case _ => false
  }

  /** The bond a proposal leaves the target with. */
  function Proposed(b: Bond, src: int, now: int): Bond {
    match b
    case NoBond => Offered(src)
    case Offered(_) => Offered(src)
    case Trial(holder, name, start, ending) =>
      if holder == src && start + OWNERSHIP_DELAY_MS <= now then Trial(holder, name, start, true) else b
    case Full(_, _, _, _) => b
  }

  /** The bond an acceptance leaves the actor with. */
  function Accepted(b: Bond, target: int, targetName: string, now: int): Bond {
    match b
    case Offered(holder) => if holder == target then Trial(target, targetName, now, false) else b
    case Trial(holder, _, _, ending) => if holder == target && ending then Full(target, targetName, now, None) else b
    case _ => b
  }

  /** One request of `src` about `target`, as one move of the machine. */
  function Act(d: Desk, src: int, target: int, action: Action, e: Env): (d': Desk)
    ensures d'.online == d.online && d'.bonds.Keys == d.bonds.Keys
  {
    var bonds := d.bonds;
    if src !in d.online || src !in bonds then d
    else if action == Break then
      if MayBreak(bonds[src], e.difficulty, e.now) then d.(bonds := bonds[src := NoBond]) else d
    else if e.room.None? || target !in bonds then d
    else if action == Release then
      if Holder(bonds[target]) == Some(src) && (target in e.room.value ==> target in d.online)
      then d.(bonds := bonds[target := NoBond])
      else d
    else if target !in e.room.value || target !in d.online then d
    else if action == UpdateNotes then
      if bonds[target].Full? && bonds[target].holder == src
      then d.(bonds := bonds[target := bonds[target].(notes := NotesKept(e.notes))])
      else d
    else if e.blacklisted || src == target then d
    else if action == Propose then
      if Holder(bonds[src]) == Some(target) then d
      else d.(bonds := bonds[target := Proposed(bonds[target], src, e.now)])
    else if action == Accept then
      d.(bonds := bonds[src := Accepted(bonds[src], target, e.targetName, e.now)])
    else d
  }

  datatype Op =
    | Request(src: int, target: int, action: Action, env: Env)
    | Login(member: int)
    | Logout(member: int)
    | Join(member: int)

  function Step(d: Desk, op: Op): Desk {
    match op
    case Request(src, target, action, env) => Act(d, src, target, action, env)
    case Login(m) => if m in d.bonds then d.(online := d.online + {m}) else d
    case Logout(m) =>
      if m in d.online && m in d.bonds
      then Desk(d.bonds[m := Strip(d.bonds[m])], d.online - {m})
      else d
    case Join(m) => if m in d.bonds then d else Desk(d.bonds[m := NoBond], d.online + {m})
  }

  function Run(d: Desk, ops: seq<Op>): Desk
    decreases |ops|
  {
    if ops == [] then d else Step(Run(d, ops[..|ops| - 1]), ops[|ops| - 1])
  }

  // ----- When a full bond ends -----

  /** The two ways out of a full bond held by `holder` since `start`. */
  predicate Ends(d: Desk, m: int, holder: int, start: int, op: Op) {
    && op.Request? && op.src in d.online && op.src in d.bonds
    && ((op.action == Release && op.src == holder && op.target == m && op.env.room.Some?
         && (m in op.env.room.value ==> m in d.online))
        || (op.action == Break && op.src == m
            && start + OWNERSHIP_DELAY_MS <= op.env.now && op.env.difficulty <= 2))
  }

  /** A full bond keeps its holder, name and start over any step, unless the holder releases it or
      the owned account may and does break it; in those two cases it is gone. */
  lemma FullEndsIff(d: Desk, m: int, op: Op)
    requires m in d.bonds && d.bonds[m].Full? && d.bonds[m].holder != m
    ensures
      var b, d' := d.bonds[m], Step(d, op);
      m in d'.bonds && if Ends(d, m, b.holder, b.start, op) then d'.bonds[m] == NoBond
      else d'.bonds[m].Full? && d'.bonds[m].(notes := None) == b.(notes := None)
  {
  }

  /** No account holds itself or has an offer from itself. */
  ghost predicate NobodyOwnsSelf(d: Desk) {
    forall m :: m in d.bonds ==> Holder(d.bonds[m]) != Some(m) && d.bonds[m] != Offered(m)
  }

  lemma StepKeepsNobodyOwnsSelf(d: Desk, op: Op)
    requires NobodyOwnsSelf(d)
    ensures NobodyOwnsSelf(Step(d, op))
  {
  }

  lemma {:induction false} RunKeepsNobodyOwnsSelf(d: Desk, ops: seq<Op>)
    requires NobodyOwnsSelf(d)
    ensures NobodyOwnsSelf(Run(d, ops))
    decreases |ops|
  {
    if ops != [] {
      RunKeepsNobodyOwnsSelf(d, ops[..|ops| - 1]);
      StepKeepsNobodyOwnsSelf(Run(d, ops[..|ops| - 1]), ops[|ops| - 1]);
    }
  }

  /** Over a whole run a full bond stays as it began until a request that ends it. */
  lemma {:induction false} FullStays(d: Desk, m: int, ops: seq<Op>)
    requires NobodyOwnsSelf(d) && m in d.bonds && d.bonds[m].Full?
    requires forall i :: 0 <= i < |ops| ==>
      !Ends(Run(d, ops[..i]), m, d.bonds[m].holder, d.bonds[m].start, ops[i])
    ensures m in Run(d, ops).bonds && Run(d, ops).bonds[m].Full?
    ensures Run(d, ops).bonds[m].(notes := None) == d.bonds[m].(notes := None)
    decreases |ops|
  {
    if ops != [] {
      var n := |ops| - 1;
      var before := ops[..n];
      forall i | 0 <= i < |before|
        ensures !Ends(Run(d, before[..i]), m, d.bonds[m].holder, d.bonds[m].start, before[i])
      {
        assert before[..i] == ops[..i];
      }
      FullStays(d, m, before);
      RunKeepsNobodyOwnsSelf(d, before);
      FullEndsIff(Run(d, before), m, ops[n]);
    }
  }

  /** At the highest difficulty only the holder's release ends a full bond. */
  lemma ExtremeNeedsRelease(d: Desk, m: int, op: Op)
    requires m in d.bonds && d.bonds[m].Full? && d.bonds[m].holder != m
    requires op.Request? && op.src == m ==> op.env.difficulty == 3
    requires !(op.Request? && op.action == Release && op.src == d.bonds[m].holder)
    ensures m in Step(d, op).bonds && Step(d, op).bonds[m].Full? && Step(d, op).bonds[m].holder == d.bonds[m].holder
  {
    FullEndsIff(d, m, op);
  }

  // ----- What moves a bond, by its fields -----

  /** Both are online and in one room, and `from` makes a request of that kind about `to`. */
  predicate Together(d: Desk, op: Op, from: int, to: int, action: Action) {
    && op.Request? && op.src == from && op.target == to && op.action == action
    && from in d.online && from in d.bonds && to in d.online && to in d.bonds
    && op.env.room.Some? && to in op.env.room.value
  }

  /** Who is online after a step, and which accounts there are. */
  lemma SessionsAfter(d: Desk, op: Op, m: int)
    ensures m in Step(d, op).bonds <==> m in d.bonds || op == Join(m)
    ensures m in Step(d, op).online <==>
      || (m in d.online && !(op == Logout(m) && m in d.bonds))
      || (op == Login(m) && m in d.bonds)
      || (op == Join(m) && m !in d.bonds)
    ensures op == Join(m) && m !in d.bonds ==> Step(d, op).bonds[m] == NoBond
    ensures (op.Login? || op.Join?) && m in d.bonds ==> Step(d, op).bonds[m] == d.bonds[m]
  {
  }

  /** A free account, or one with another's offer, gets an offer exactly when that member makes it. */
  lemma OfferMadeIff(d: Desk, op: Op, m: int, holder: int)
    requires m in d.bonds && d.bonds[m] != Offered(holder)
    ensures m in Step(d, op).bonds
    ensures Step(d, op).bonds[m] == Offered(holder) <==>
      && Together(d, op, holder, m, Propose) && !op.env.blacklisted && holder != m
      && Holder(d.bonds[holder]) != Some(m) && (d.bonds[m] == NoBond || d.bonds[m].Offered?)
  {
  }

  /** An offer to start is lost only to a logout, to another's offer, or by being accepted. */
  lemma OfferEndsIff(d: Desk, op: Op, m: int)
    requires m in d.bonds && d.bonds[m].Offered?
    ensures m in Step(d, op).bonds
    ensures Step(d, op).bonds[m] == NoBond <==> op == Logout(m) && m in d.online
    ensures Step(d, op).bonds[m].Offered? || Step(d, op).bonds[m].Trial? || Step(d, op).bonds[m].NoBond?
  {
  }

  /** A trial starts exactly by accepting the offer there is, and with the acceptance. */
  lemma TrialBeginsIff(d: Desk, op: Op, m: int)
    requires m in d.bonds && !d.bonds[m].Trial?
    ensures
      var b, b' := d.bonds[m], Step(d, op).bonds[m];
      var accepts := b.Offered? && b.holder != m && Together(d, op, m, b.holder, Accept) && !op.env.blacklisted;
      && (b'.Trial? <==> accepts)
      && (accepts ==> b' == Trial(b.holder, op.env.targetName, op.env.now, false))
  {
  }

  /** The end of a trial is offered exactly by its holder's proposal after the delay. */
  lemma EndOfferedIff(d: Desk, op: Op, m: int)
    requires m in d.bonds && d.bonds[m].Trial? && !d.bonds[m].ending
    ensures m in Step(d, op).bonds
    ensures
      var b := d.bonds[m];
      Step(d, op).bonds[m] == Trial(b.holder, b.name, b.start, true) <==>
        && Together(d, op, b.holder, m, Propose) && !op.env.blacklisted && b.holder != m
        && Holder(d.bonds[b.holder]) != Some(m) && b.start + OWNERSHIP_DELAY_MS <= op.env.now
  {
  }

  /** The offer of the end is dropped, and the trial goes on, exactly at a logout. */
  lemma EndOfferLostIff(d: Desk, op: Op, m: int)
    requires m in d.bonds && d.bonds[m].Trial? && d.bonds[m].ending
    ensures m in Step(d, op).bonds
    ensures Step(d, op).bonds[m].Trial? && !Step(d, op).bonds[m].ending <==> op == Logout(m) && m in d.online
    ensures Step(d, op).bonds[m].Trial? ==>
      Step(d, op).bonds[m].(ending := true) == d.bonds[m]
  {
  }

  /** A full bond starts exactly by accepting the end of the trial, and with the acceptance. */
  lemma FullBeginsIff(d: Desk, op: Op, m: int)
    requires m in d.bonds && !d.bonds[m].Full?
    ensures
      var b, b' := d.bonds[m], Step(d, op).bonds[m];
      var accepts := b.Trial? && b.ending && b.holder != m
                    && Together(d, op, m, b.holder, Accept) && !op.env.blacklisted;
      && (b'.Full? <==> accepts)
      && (accepts ==> b' == Full(b.holder, op.env.targetName, op.env.now, None))
  {
  }

  /** A trial is broken off by the account at any time, or released by its holder, and only so. */
  lemma TrialEndsIff(d: Desk, op: Op, m: int)
    requires m in d.bonds && d.bonds[m].Trial?
    ensures m in Step(d, op).bonds
    ensures Step(d, op).bonds[m] == NoBond <==>
      && op.Request? && op.src in d.online && op.src in d.bonds
      && ((op.action == Break && op.src == m)
          || (op.action == Release && op.src == d.bonds[m].holder && op.target == m && op.env.room.Some?
              && (m in op.env.room.value ==> m in d.online)))
  {
  }

  /** The notes on a full bond change only at its holder's request, to the first 4000 characters of what is
      sent, and to none when that is empty or missing. */
  lemma NotesChange(d: Desk, op: Op, m: int)
    requires m in d.bonds && d.bonds[m].Full?
    ensures m in Step(d, op).bonds
    ensures
      var b, b' := d.bonds[m], Step(d, op).bonds[m];
      if Together(d, op, b.holder, m, UpdateNotes) then
        && b'.Full? && b'.(notes := None) == b.(notes := None)
        && (b'.notes.None? <==> op.env.notes.None? || op.env.notes.value == "")
        && (b'.notes.Some? ==>
              && b'.notes.value <= op.env.notes.value
              && |b'.notes.value| == if |op.env.notes.value| <= 4000 then |op.env.notes.value| else 4000)
      else b' == b || b' == NoBond
  {
  }

  /** Two new accounts, 1 and 2, go all the way: 2 is offered a trial, accepts, is offered its end once the delay
      has passed, and accepts. */
  lemma FullReachable(e: Env, later: Env)
    requires e.room == Some({1, 2}) == later.room && !e.blacklisted && !later.blacklisted
    requires e.now + OWNERSHIP_DELAY_MS <= later.now
    ensures
      var d := Run(Desk(map[], {}), [Join(1), Join(2), Request(1, 2, Propose, e), Request(2, 1, Accept, e),
                                     Request(1, 2, Propose, later), Request(2, 1, Accept, later)]);
      d.bonds == map[1 := NoBond, 2 := Full(1, later.targetName, later.now, None)]
  {
    hide Run, Step;
    var d0 := Desk(map[], {});
    var ops := [Join(1), Join(2), Request(1, 2, Propose, e), Request(2, 1, Accept, e),
                Request(1, 2, Propose, later), Request(2, 1, Accept, later)];
    RunOfSix(d0, ops);
    NewPair();
    TrialOfPair(Desk(map[1 := NoBond, 2 := NoBond], {1, 2}), e);
    FullOfPair(Desk(map[1 := NoBond, 2 := Trial(1, e.targetName, e.now, false)], {1, 2}), later);
  }

  lemma RunOfSix(d: Desk, ops: seq<Op>)
    requires |ops| == 6
    ensures Run(d, ops) == Step(Step(Step(Step(Step(Step(d, ops[0]), ops[1]), ops[2]), ops[3]), ops[4]), ops[5])
  {
    hide Step, Run;
    assert ops[..0] == [] && ops[..6] == ops;
    RunStart(d);
    RunOneMore(d, ops, 0);
    RunOneMore(d, ops, 1);
    RunOneMore(d, ops, 2);
    RunOneMore(d, ops, 3);
    RunOneMore(d, ops, 4);
    RunOneMore(d, ops, 5);
  }

  lemma RunStart(d: Desk)
    ensures Run(d, []) == d
  {
  }

  lemma RunOneMore(d: Desk, ops: seq<Op>, i: nat)
    requires i < |ops|
    ensures Run(d, ops[..i + 1]) == Step(Run(d, ops[..i]), ops[i])
  {
    assert ops[..i + 1][..i] == ops[..i];
  }

  lemma NewPair()
    ensures Step(Step(Desk(map[], {}), Join(1)), Join(2)) == Desk(map[1 := NoBond, 2 := NoBond], {1, 2})
  {
  }

  lemma TrialOfPair(d: Desk, e: Env)
    requires d == Desk(map[1 := NoBond, 2 := NoBond], {1, 2}) && e.room == Some({1, 2}) && !e.blacklisted
    ensures Step(Step(d, Request(1, 2, Propose, e)), Request(2, 1, Accept, e)) ==
            Desk(map[1 := NoBond, 2 := Trial(1, e.targetName, e.now, false)], {1, 2})
  {
  }

  lemma FullOfPair(d: Desk, e: Env)
    requires d.bonds.Keys == {1, 2} == d.online && d.bonds[1] == NoBond && e.room == Some({1, 2}) && !e.blacklisted
    requires d.bonds[2].Trial? && d.bonds[2].holder == 1 && !d.bonds[2].ending
    requires d.bonds[2].start + OWNERSHIP_DELAY_MS <= e.now
    ensures Step(Step(d, Request(1, 2, Propose, e)), Request(2, 1, Accept, e)) ==
            Desk(map[1 := NoBond, 2 := Full(1, e.targetName, e.now, None)], {1, 2})
  {
  }

  // ----- How a full bond comes about -----

  predicate IsProposal(op: Op, from: int, to: int) {
    op.Request? && op.src == from && op.target == to && op.action == Propose
  }

  predicate IsAcceptance(op: Op, from: int, to: int, now: int) {
    op.Request? && op.src == from && op.target == to && op.action == Accept && op.env.now == now
  }

  /** The positions in a run of the requests that made a bond: an offer, its acceptance, an offer to
      end the trial at least the delay later, and its acceptance, in that order. */
  ghost predicate Made(ops: seq<Op>, m: int, b: Bond, w: seq<nat>) {
    && (forall i :: 0 <= i < |w| ==> w[i] < |ops|)
    && (forall i, j :: 0 <= i < j < |w| ==> w[i] < w[j])
    && match b
       case NoBond => true
       case Offered(holder) => |w| == 1 && IsProposal(ops[w[0]], holder, m)
       case Trial(holder, _, start, ending) =>
         && |w| == (if ending then 3 else 2)
         && IsProposal(ops[w[0]], holder, m) && IsAcceptance(ops[w[1]], m, holder, start)
         && (ending ==> IsProposal(ops[w[2]], holder, m) && start + OWNERSHIP_DELAY_MS <= ops[w[2]].env.now)
       case Full(holder, _, start, _) =>
         && |w| == 4
         && IsProposal(ops[w[0]], holder, m)
         && ops[w[1]].Request? && IsAcceptance(ops[w[1]], m, holder, ops[w[1]].env.now)
         && IsProposal(ops[w[2]], holder, m)
         && ops[w[1]].env.now + OWNERSHIP_DELAY_MS <= ops[w[2]].env.now
         && IsAcceptance(ops[w[3]], m, holder, start)
  }

  /** Whatever bond an account has at the end of a run that began without one was made, step by step,
      by requests of that run. */
  lemma {:induction false} EveryBondIsMade(d: Desk, ops: seq<Op>, m: int) returns (w: seq<nat>)
    requires m in d.bonds ==> d.bonds[m] == NoBond
    requires m in Run(d, ops).bonds
    ensures Made(ops, m, Run(d, ops).bonds[m], w)
    decreases |ops|
  {
    w := [];
    if ops != [] {
      var n := |ops| - 1;
      var before := Run(d, ops[..n]);
      if m in before.bonds {
        var v := EveryBondIsMade(d, ops[..n], m);
        w := MadeByStep(before, ops, m, v);
      }
    }
  }

  /** How a step can change the bond of one account. */
  lemma BondMoves(d: Desk, op: Op, m: int)
    requires m in d.bonds
    ensures
      m in Step(d, op).bonds
      && var b, b' := d.bonds[m], Step(d, op).bonds[m];
      match b'
      case NoBond => true
      case Offered(holder) => b' == b || IsProposal(op, holder, m)
      case Trial(holder, _, start, ending) =>
        || b' == b
        || (ending && b == b'.(ending := false) && IsProposal(op, holder, m)
            && start + OWNERSHIP_DELAY_MS <= op.env.now)
        || (!ending && b == b'.(ending := true))
        || (!ending && b == Offered(holder) && IsAcceptance(op, m, holder, start))
      case Full(holder, name, start, _) =>
        || (b.Full? && b.holder == holder && b.start == start)
        || (b.Trial? && b.ending && b.holder == holder && IsAcceptance(op, m, holder, start))
  {
  }

  lemma MadeByStep(before: Desk, ops: seq<Op>, m: int, v: seq<nat>) returns (w: seq<nat>)
    requires ops != [] && m in before.bonds
    requires Made(ops[..|ops| - 1], m, before.bonds[m], v)
    ensures m in Step(before, ops[|ops| - 1]).bonds
    ensures Made(ops, m, Step(before, ops[|ops| - 1]).bonds[m], w)
  {
    hide Step, IsProposal, IsAcceptance;
    var n := |ops| - 1;
    BondMoves(before, ops[n], m);
    var b, b' := before.bonds[m], Step(before, ops[n]).bonds[m];
    MadeLonger(ops, m, b, v);
    if b' == b || (b.Full? && b'.Full?) {
      w := v;
    } else if b'.NoBond? {
      w := [];
    } else if b'.Offered? {
      w := [n];
    } else if b'.Full? {
      w := v + [n];
      MadeFull(ops, m, b, b', v);
    } else if b.Trial? && !b'.ending {
      w := v[..2];
    } else {
      w := v + [n];
    }
  }

  lemma MadeLonger(ops: seq<Op>, m: int, b: Bond, v: seq<nat>)
    requires ops != [] && Made(ops[..|ops| - 1], m, b, v)
    ensures Made(ops, m, b, v)
  {
    hide IsProposal, IsAcceptance;
    var front := ops[..|ops| - 1];
    assert forall i :: 0 <= i < |v| ==> ops[v[i]] == front[v[i]];
  }

  lemma MadeFull(ops: seq<Op>, m: int, b: Bond, b': Bond, v: seq<nat>)
    requires Made(ops, m, b, v) && b.Trial? && b.ending && b'.Full? && b'.holder == b.holder
    requires ops != [] && IsAcceptance(ops[|ops| - 1], m, b'.holder, b'.start)
    requires forall i :: 0 <= i < |v| ==> v[i] < |ops| - 1
    ensures Made(ops, m, b', v + [|ops| - 1])
  {
    hide IsProposal;
  }

  /** With a clock that never runs back, a full bond is at least one delay younger than the trial it
      came from, which in turn followed the first offer. */
  lemma FullTakesTheDelay(d: Desk, ops: seq<Op>, m: int) returns (w: seq<nat>)
    requires m in d.bonds ==> d.bonds[m] == NoBond
    requires m in Run(d, ops).bonds && Run(d, ops).bonds[m].Full?
    requires forall i, j :: 0 <= i < j < |ops| && ops[i].Request? && ops[j].Request? ==>
      ops[i].env.now <= ops[j].env.now
    ensures Made(ops, m, Run(d, ops).bonds[m], w)
    ensures ops[w[0]].env.now <= ops[w[1]].env.now
    ensures ops[w[1]].env.now + OWNERSHIP_DELAY_MS <= Run(d, ops).bonds[m].start
  {
    w := EveryBondIsMade(d, ops, m);
  }

  /** Releasing in the room and releasing from afar come to the same. */
  lemma ReleasePathsAgree(d: Desk, src: int, target: int, e: Env, near: set<int>, far: set<int>)
    requires target in near && target !in far && target in d.online
    ensures Act(d, src, target, Release, e.(room := Some(near))) ==
            Act(d, src, target, Release, e.(room := Some(far)))
  {
  }

  // ----- When two accounts come to hold each other -----

  /** No two accounts hold each other. */
  ghost predicate OneWay(d: Desk) {
    forall a, b :: a in d.bonds && b in d.bonds && Holder(d.bonds[a]) == Some(b) ==> Holder(d.bonds[b]) != Some(a)
  }

  /** The start of a trial is accepted by the one who holds the offering account. */
  predicate Crosses(d: Desk, op: Op) {
    && op.Request? && op.action == Accept
    && op.src in d.online && op.src in d.bonds && op.target in d.online && op.target in d.bonds
    && op.env.room.Some? && op.target in op.env.room.value && !op.env.blacklisted
    && d.bonds[op.src] == Offered(op.target) && Holder(d.bonds[op.target]) == Some(op.src)
  }

  /** A step makes two accounts hold each other exactly when it crosses. */
  lemma StepOneWayIff(d: Desk, op: Op)
    requires OneWay(d) && NobodyOwnsSelf(d)
    ensures OneWay(Step(d, op)) <==> !Crosses(d, op)
  {
  }

  /** No step of the run crosses. */
  ghost predicate NeverCrosses(d: Desk, ops: seq<Op>) {
    forall i :: 0 <= i < |ops| ==> !Crosses(Run(d, ops[..i]), ops[i])
  }

  lemma {:induction false} RunOneWayAtEnd(d: Desk, ops: seq<Op>)
    requires OneWay(d) && NobodyOwnsSelf(d) && NeverCrosses(d, ops)
    ensures OneWay(Run(d, ops))
    decreases |ops|
  {
    hide OneWay, NobodyOwnsSelf, Crosses, Step;
    if ops != [] {
      var before := ops[..|ops| - 1];
      forall i | 0 <= i < |before| ensures !Crosses(Run(d, before[..i]), before[i]) {
        assert before[..i] == ops[..i];
      }
      RunOneWayAtEnd(d, before);
      RunKeepsNobodyOwnsSelf(d, before);
      StepOneWayIff(Run(d, before), ops[|ops| - 1]);
    }
  }

  /** Along a run no two accounts ever hold each other exactly when none of its steps crosses. */
  lemma RunOneWayIff(d: Desk, ops: seq<Op>)
    requires OneWay(d) && NobodyOwnsSelf(d)
    ensures NeverCrosses(d, ops) <==> forall i :: 0 <= i <= |ops| ==> OneWay(Run(d, ops[..i]))
  {
    hide OneWay, NobodyOwnsSelf, Crosses, Step;
    if NeverCrosses(d, ops) {
      forall i | 0 <= i <= |ops| ensures OneWay(Run(d, ops[..i])) {
        assert forall k :: 0 <= k < i ==> ops[..i][..k] == ops[..k];
        RunOneWayAtEnd(d, ops[..i]);
      }
    } else {
      var i :| 0 <= i < |ops| && Crosses(Run(d, ops[..i]), ops[i]);
      if OneWay(Run(d, ops[..i])) {
        assert ops[..i + 1][..i] == ops[..i];
        RunKeepsNobodyOwnsSelf(d, ops[..i]);
        StepOneWayIff(Run(d, ops[..i]), ops[i]);
      }
    }
  }

  /** It does happen: each of two new accounts offers, and both accept. */
  lemma MutualOwnershipReachable(e: Env)
    requires e.room == Some({1, 2}) && !e.blacklisted
    ensures
      var d := Run(Desk(map[], {}), [Join(1), Join(2), Request(1, 2, Propose, e), Request(2, 1, Propose, e),
                                     Request(1, 2, Accept, e), Request(2, 1, Accept, e)]);
      1 in d.bonds && 2 in d.bonds && Holder(d.bonds[1]) == Some(2) && Holder(d.bonds[2]) == Some(1)
  {
    hide Run, Step;
    RunOfSix(Desk(map[], {}), [Join(1), Join(2), Request(1, 2, Propose, e), Request(2, 1, Propose, e),
                               Request(1, 2, Accept, e), Request(2, 1, Accept, e)]);
    NewPair();
    CrossingPair(Desk(map[1 := NoBond, 2 := NoBond], {1, 2}), e);
  }

  lemma CrossingPair(d: Desk, e: Env)
    requires d == Desk(map[1 := NoBond, 2 := NoBond], {1, 2}) && e.room == Some({1, 2}) && !e.blacklisted
    ensures
      var d' := Step(Step(Step(Step(d, Request(1, 2, Propose, e)), Request(2, 1, Propose, e)),
                          Request(1, 2, Accept, e)), Request(2, 1, Accept, e));
      1 in d'.bonds && 2 in d'.bonds && Holder(d'.bonds[1]) == Some(2) && Holder(d'.bonds[2]) == Some(1)
  {
  }

  // ----- The records the handlers really keep -----

  /** A record of optional fields, as the JSON has them. All absent is JSON's `null`. */
  datatype Record = Record(member: Option<int>, name: Option<string>, start: Option<int>, stage: Option<int>,
                           startOffer: Option<int>, endOffer: Option<int>, notes: Option<string>)

  const NULL_RECORD := Record(None, None, None, None, None, None, None)

  datatype Owned = Owned(ownership: Option<Record>, owner: string)

  const CLEARED := Owned(None, "")
  const CLEARED_IN_STORE := Owned(Some(NULL_RECORD), "")

  /** The shape of a record, when it has one of the four. */
  function BondOf(o: Owned): Option<Bond> {
    if o.ownership.None? || o.ownership.value == NULL_RECORD then
      if o.owner == "" then Some(NoBond) else None
    else
      var r := o.ownership.value;
      if r.startOffer.Some? then
        if r == NULL_RECORD.(startOffer := r.startOffer) && o.owner == ""
        then Some(Offered(r.startOffer.value)) else None
      else if r.member.None? || r.name.None? || r.start.None? then None
      else if r.stage == Some(0) && o.owner == "" && r.notes.None? && (r.endOffer.None? || r.endOffer == r.member)
      then Some(Trial(r.member.value, r.name.value, r.start.value, r.endOffer.Some?))
      else if r.stage == Some(1) && o.owner == r.name.value && r.endOffer.None?
      then Some(Full(r.member.value, r.name.value, r.start.value, r.notes))
      else None
  }

  /** What a record of each shape holds, field by field. */
  lemma Fields(o: Owned, b: Bond)
    requires BondOf(o) == Some(b)
    ensures
      var r := if o.ownership.Some? then o.ownership.value else NULL_RECORD;
      && r.member == Holder(b)
      && r.startOffer == (if b.Offered? then Some(b.holder) else None)
      && r.endOffer == (if b.Trial? && b.ending then Some(b.holder) else None)
      && r.stage == (if b.Trial? then Some(0) else if b.Full? then Some(1) else None)
      && r.start == (if b.Trial? || b.Full? then Some(b.start) else None)
    ensures o.owner == if b.Full? then b.name else ""
  {
  }

  /** A record never holds an offer to start a trial and one to end it, so of the two ways to accept at most
      one applies; and an offer to end a trial is its holder's. */
  lemma OffersExclude(o: Owned, b: Bond, target: int)
    requires BondOf(o) == Some(b) && o.ownership.Some?
    ensures
      var r := o.ownership.value;
      && !(r.startOffer == Some(target) && r.stage == Some(0) && r.endOffer == Some(target))
      && (r.startOffer.Some? ==> r.member.None? && r.endOffer.None?)
      && (r.endOffer.Some? ==> r.stage == Some(0) && r.endOffer == r.member)
  {
    Fields(o, b);
  }

  lemma WithEndOffer(o: Owned, b: Bond)
    requires BondOf(o) == Some(b) && b.Trial? && o.ownership.Some?
    ensures BondOf(Owned(Some(o.ownership.value.(endOffer := Some(b.holder))), o.owner)) == Some(b.(ending := true))
  {
  }

  lemma WithNotes(o: Owned, b: Bond, notes: Option<string>)
    requires BondOf(o) == Some(b) && b.Full? && o.ownership.Some?
    ensures BondOf(Owned(Some(o.ownership.value.(notes := notes)), o.owner)) == Some(b.(notes := notes))
  {
  }

  lemma Shapes(holder: int, name: string, start: int)
    ensures BondOf(Owned(Some(NULL_RECORD.(startOffer := Some(holder))), "")) == Some(Offered(holder))
    ensures BondOf(Owned(Some(Record(Some(holder), Some(name), Some(start), Some(0), None, None, None)), ""))
         == Some(Trial(holder, name, start, false))
    ensures BondOf(Owned(Some(Record(Some(holder), Some(name), Some(start), Some(1), None, None, None)), name))
         == Some(Full(holder, name, start, None))
  {
  }

  /** Memory for the accounts online, and the store for all. */
  datatype Tables = Tables(memory: map<int, Owned>, store: map<int, Owned>)

  function Current(t: Tables, m: int): Option<Bond>
    requires m in t.store
  {
    BondOf(if m in t.memory then t.memory[m] else t.store[m])
  }

  /** Only the four shapes occur, nobody holds themselves, and the store is memory without offers. */
  ghost predicate ValidTables(t: Tables) {
    && t.memory.Keys <= t.store.Keys
    && forall m :: m in t.store ==>
      && Current(t, m).Some?
      && Holder(Current(t, m).value) != Some(m) && Current(t, m) != Some(Offered(m))
      && BondOf(t.store[m]) == Some(Strip(Current(t, m).value))
  }

  ghost function Meaning(t: Tables): Desk
    requires ValidTables(t)
  {
    Desk(map m | m in t.store :: Current(t, m).value, t.memory.Keys)
  }

  /** Changing one account's two copies together changes its bond and nothing else. */
  lemma SetBoth(t: Tables, m: int, mem: Owned, st: Owned, b: Bond)
    requires ValidTables(t) && m in t.memory
    requires BondOf(mem) == Some(b) && BondOf(st) == Some(Strip(b))
    requires Holder(b) != Some(m) && b != Offered(m)
    ensures
      var t' := Tables(t.memory[m := mem], t.store[m := st]);
      ValidTables(t') && Meaning(t') == Meaning(t).(bonds := Meaning(t).bonds[m := b])
  {
    hide BondOf;
    var t' := Tables(t.memory[m := mem], t.store[m := st]);
    assert forall k :: k in t'.store && k != m ==> Current(t', k) == Current(t, k);
  }

  lemma SetStored(t: Tables, m: int, st: Owned, b: Bond)
    requires ValidTables(t) && m in t.store && m !in t.memory
    requires BondOf(st) == Some(b) && Strip(b) == b && Holder(b) != Some(m)
    ensures
      var t' := t.(store := t.store[m := st]);
      ValidTables(t') && Meaning(t') == Meaning(t).(bonds := Meaning(t).bonds[m := b])
  {
    hide BondOf;
    var t' := t.(store := t.store[m := st]);
    assert forall k :: k in t'.store && k != m ==> Current(t', k) == Current(t, k);
  }

  /** Memory and store name the same holder, so both release paths authorise the same member. */
  lemma SameHolder(t: Tables, m: int)
    requires ValidTables(t) && m in t.store
    ensures
      var held := if m in t.memory then t.memory[m].ownership else t.store[m].ownership;
      var stored := t.store[m].ownership;
      (if held.Some? then held.value.member else None) == (if stored.Some? then stored.value.member else None)
      && (if stored.Some? then stored.value.member else None) == Holder(Current(t, m).value)
  {
  }

  lemma BondAt(t: Tables, m: int)
    requires ValidTables(t) && m in t.memory
    ensures m in t.store && Current(t, m).Some? && BondOf(t.memory[m]) == Current(t, m)
    ensures Holder(Current(t, m).value) != Some(m) && Current(t, m) != Some(Offered(m))
    ensures m in Meaning(t).online && m in Meaning(t).bonds && Meaning(t).bonds[m] == Current(t, m).value
  {
  }

  lemma ClearedBond()
    ensures BondOf(CLEARED) == Some(NoBond) == BondOf(CLEARED_IN_STORE)
  {
  }

  /** A full bond is written out alike in the store and, while the account is online, in memory. */
  lemma FullInBothCopies(t: Tables, m: int)
    requires ValidTables(t) && m in t.store && Meaning(t).bonds[m].Full?
    ensures
      var b := Meaning(t).bonds[m];
      var r := Record(Some(b.holder), Some(b.name), Some(b.start), Some(1), None, None, b.notes);
      && t.store[m] == Owned(Some(r), b.name)
      && (m in t.memory ==> t.memory[m] == Owned(Some(r), b.name))
  {
  }

  class OwnershipDesk {
    var memory: map<int, Owned>
    var store: map<int, Owned>

    function Contents(): Tables
      reads this
    {
      Tables(memory, store)
    }

    ghost predicate Valid()
      reads this
    {
      ValidTables(Contents())
    }

    ghost function State(): Desk
      requires Valid()
      reads this
    {
      Meaning(Contents())
    }

    constructor ()
      ensures Valid() && State() == Desk(map[], {})
    {
      memory, store := map[], map[];
    }

    method LoadSession(m: int)
      requires Valid()
      modifies this
      ensures Valid() && State() == Step(old(State()), Login(m))
    {
      if m in store && m !in memory {
        memory := memory[m := store[m]];
        assert Strip(Strip(Current(old(Contents()), m).value)) == Strip(Current(old(Contents()), m).value);
        assert forall k :: k in store ==> Current(Contents(), k) == Current(old(Contents()), k);
      }
    }

    method EndSession(m: int)
      requires Valid()
      modifies this
      ensures Valid() && State() == Step(old(State()), Logout(m))
    {
      hide BondOf;
      memory := memory - {m};
      assert forall k :: k in store && k != m ==> Current(Contents(), k) == Current(old(Contents()), k);
    }

    method CreateAccount(m: int)
      requires Valid()
      modifies this
      ensures Valid() && State() == Step(old(State()), Join(m))
    {
      hide BondOf;
      ClearedBond();
      if m !in store {
        memory := memory[m := CLEARED];
        store := store[m := CLEARED];
        assert forall k :: k in store && k != m ==> Current(Contents(), k) == Current(old(Contents()), k);
      }
    }

    method ClearOwnershipDb(m: int)
      requires m in store
      modifies this`store
      ensures store == old(store)[m := CLEARED_IN_STORE]
    {
      store := store[m := Owned(Some(NULL_RECORD), "")];
    }

    method HandleBreak(src: int, e: Env)
      requires Valid()
      modifies this
      ensures Valid() && forall target :: State() == Act(old(State()), src, target, Break, e)
    {
      if src !in memory {
        return;
      }
      var acc := memory[src];
      if acc.ownership.None? {
        return;
      }
      var o := acc.ownership.value;
      if o.stage.None? || o.start.None? {
        return;
      }
      if o.stage.value != 0 && o.start.value + OWNERSHIP_DELAY_MS > e.now {
        return;
      }
      if e.difficulty > 2 && o.stage.value != 0 {
        return;
      }
      SetBoth(Contents(), src, CLEARED, CLEARED_IN_STORE, NoBond);
      memory := memory[src := CLEARED];
      ClearOwnershipDb(src);
    }

    /** The target is elsewhere: the store decides, and both copies are cleared. */
    method ReleaseOffline(src: int, target: int, e: Env)
      requires Valid() && src in memory && e.room.Some? && target !in e.room.value
      modifies this
      ensures Valid() && State() == Act(old(State()), src, target, Release, e)
    {
      hide BondOf;
      ClearedBond();
      if target !in store {
        return;
      }
      SameHolder(Contents(), target);
      var o := store[target].ownership;
      if o.None? || o.value.member != Some(src) {
        return;
      }
      if target in memory {
        SetBoth(Contents(), target, CLEARED, CLEARED_IN_STORE, NoBond);
      } else {
        SetStored(Contents(), target, CLEARED_IN_STORE, NoBond);
      }
      ClearOwnershipDb(target);
      if target in memory {
        memory := memory[target := CLEARED];
      }
    }

    /** The target is in the room: memory decides, and both copies are cleared. */
    method ReleaseInRoom(src: int, target: int, e: Env)
      requires Valid() && src in memory && target in memory && e.room.Some? && target in e.room.value
      modifies this
      ensures Valid() && State() == Act(old(State()), src, target, Release, e)
    {
      hide BondOf;
      ClearedBond();
      SameHolder(Contents(), target);
      var o := memory[target].ownership;
      if o.None? || o.value.member != Some(src) {
        return;
      }
      SetBoth(Contents(), target, CLEARED, CLEARED_IN_STORE, NoBond);
      memory := memory[target := CLEARED];
      ClearOwnershipDb(target);
    }

    method HandleUpdateNotes(src: int, target: int, e: Env)
      requires Valid() && src in memory && target in memory && e.room.Some? && target in e.room.value
      modifies this
      ensures Valid() && State() == Act(old(State()), src, target, UpdateNotes, e)
    {
      hide BondOf;
      ghost var b := Current(Contents(), target).value;
      Fields(memory[target], b);
      var o := memory[target].ownership;
      if o.None? || o.value.stage != Some(1) || o.value.member != Some(src) {
        return;
      }
      var text := None;
      if e.notes.Some? && e.notes.value != "" {
        text := Some(if |e.notes.value| > NOTES_MAX then e.notes.value[..NOTES_MAX] else e.notes.value);
      }
      WithNotes(memory[target], b, text);
      BindBoth(target, o.value.(notes := text), memory[target].owner, b.(notes := text));
    }

    /** Steps 1 and 3: an offer to start a trial, and after the delay an offer to end it. Both are
        kept in memory only. */
    method HandlePropose(src: int, target: int, e: Env)
      requires Valid() && src in memory && target in memory && e.room.Some? && target in e.room.value
      modifies this
      ensures Valid() && State() == Act(old(State()), src, target, Propose, e)
    {
      hide BondOf, ValidTables, Meaning;
      BondAt(Contents(), src);
      BondAt(Contents(), target);
      var b := Current(Contents(), target).value;
      Fields(memory[src], Current(Contents(), src).value);
      Fields(memory[target], b);
      var mine := memory[src].ownership;
      var ownedByTarget := mine.Some? && mine.value.member == Some(target);
      if ownedByTarget || e.blacklisted || memory[target].owner != "" {
        return;
      }
      var theirs := memory[target].ownership;
      if theirs.None? || theirs.value.member.None? {
        if src == target {
          return;
        }
        Shapes(src, "", 0);
        OfferInMemory(target, Owned(Some(NULL_RECORD.(startOffer := Some(src))), ""), Offered(src));
      }
      if theirs.Some? {
        var o := theirs.value;
        if o.member == Some(src) && o.endOffer.None? && o.stage == Some(0)
           && o.start.Some? && o.start.value + OWNERSHIP_DELAY_MS <= e.now {
          WithEndOffer(memory[target], b);
          OfferInMemory(target, Owned(Some(o.(endOffer := Some(src))), memory[target].owner), b.(ending := true));
        }
      }
    }

    /** An offer changes the target's memory only. */
    method OfferInMemory(target: int, offer: Owned, ghost b: Bond)
      requires Valid() && target in memory && BondOf(offer) == Some(b)
      requires Strip(b) == Strip(Current(Contents(), target).value)
      requires Holder(b) != Some(target) && b != Offered(target)
      modifies this`memory
      ensures Valid() && State() == old(State()).(bonds := old(State()).bonds[target := b])
      ensures memory == old(memory)[target := offer]
    {
      hide BondOf;
      SetBoth(Contents(), target, offer, store[target], b);
      memory := memory[target := offer];
      assert old(store)[target := old(store)[target]] == store;
    }

    /** Steps 2 and 4: accepting the start of a trial, and accepting its end. Both are stored. */
    method HandleAccept(src: int, target: int, e: Env)
      requires Valid() && src in memory && target in memory && e.room.Some? && target in e.room.value
      modifies this
      ensures Valid() && State() == Act(old(State()), src, target, Accept, e)
    {
      hide BondOf;
      var b := Current(Contents(), src).value;
      Fields(memory[src], b);
      Shapes(target, e.targetName, e.now);
      var mine := memory[src].ownership;
      var canInteract := mine.None? || mine.value.member.None? || mine.value.member == Some(target);
      if !canInteract || e.blacklisted || mine.None? {
        return;
      }
      var o := mine.value;
      if o.startOffer == Some(target) {
        BindBoth(src, Record(Some(target), Some(e.targetName), Some(e.now), Some(0), None, None, None), "",
                 Trial(target, e.targetName, e.now, false));
      }
      if o.stage == Some(0) && o.endOffer == Some(target) {
        BindBoth(src, Record(Some(target), Some(e.targetName), Some(e.now), Some(1), None, None, None), e.targetName,
                 Full(target, e.targetName, e.now, None));
      }
    }

    /** An accepted offer changes memory and store alike. */
    method BindBoth(m: int, ownership: Record, owner: string, ghost b: Bond)
      requires Valid() && m in memory && BondOf(Owned(Some(ownership), owner)) == Some(b)
      requires Strip(b) == b && Holder(b) != Some(m)
      modifies this
      ensures Valid() && State() == old(State()).(bonds := old(State()).bonds[m := b])
      ensures memory.Keys == old(memory).Keys
    {
      hide BondOf;
      var next := Owned(Some(ownership), owner);
      SetBoth(Contents(), m, next, next, b);
      memory := memory[m := next];
      store := store[m := next];
    }

    method HandleAccountOwnership(src: int, target: int, action: Action, e: Env)
      requires Valid()
      modifies this
      ensures Valid() && State() == Act(old(State()), src, target, action, e)
    {
      if action == Break {
        HandleBreak(src, e);
        return;
      }
      if src !in memory || e.room.None? {
        return;
      }
      if action == Release && target !in e.room.value {
        ReleaseOffline(src, target, e);
        return;
      }
      if target !in e.room.value || target !in memory {
        return;
      }
      if action == UpdateNotes {
        HandleUpdateNotes(src, target, e);
      } else if action == Release {
        ReleaseInRoom(src, target, e);
      } else if action == Propose {
        HandlePropose(src, target, e);
      } else if action == Accept {
        HandleAccept(src, target, e);
      }
    }
  }
}
