/** The VM jobserver: a pipe of tokens shared by any number of clients, each of which reads a
    whole number of tokens before it starts its VM and writes them back afterwards. A blocked
    client keeps the tokens it has read so far. */
module Jobserver {
  import opened Wrappers

  /** A client reads until it holds `want` tokens, runs its VM, then writes them back. A
      killed client takes its tokens along; the VM of one killed while it ran goes on. */
  datatype Phase =
    | Idle
    | Reading
    | Running
    | Returning
    | Finished
    | Killed(orphan: bool, took: nat)

  datatype Client = Client(want: nat, phase: Phase, has: nat)

  datatype State = State(pipe: nat, lost: nat, clients: seq<Client>)

  datatype Action =
    | Begin(i: nat)
    | Read(i: nat, n: nat)
    | Drop(i: nat)
    | Write(i: nat, n: nat)
    | Kill(i: nat)

  function Initial(tokens: nat, wants: seq<nat>): (s: State)
    ensures |s.clients| == |wants|
  {
    State(tokens, 0, seq(|wants|, i requires 0 <= i < |wants| => Client(wants[i], Idle, 0)))
  }

  /** A client that holds all it wants goes on at once; wanting nothing never blocks. */
  function AfterRead(want: nat, has: nat): Client {
    Client(want, if has >= want then Running else Reading, has)
  }

  function AfterWrite(want: nat, has: nat): Client {
    Client(want, if has == 0 then Finished else Returning, has)
  }

  predicate Enabled(s: State, a: Action) {
    && a.i < |s.clients|
    && var c := s.clients[a.i];
       match a
       case Begin(_) => c.phase.Idle?
       case Read(_, n) => c.phase.Reading? && 0 < n <= s.pipe && c.has + n <= c.want
       case Drop(_) => c.phase.Running?
       case Write(_, n) => c.phase.Returning? && 0 < n <= c.has
       case Kill(_) => !c.phase.Finished? && !c.phase.Killed?
  }

  /** One atomic step. A read takes any part of what is missing and available; a killed
      client takes its tokens with it. */
  function Apply(s: State, a: Action): (next: State)
    requires Enabled(s, a)
    ensures |next.clients| == |s.clients|
  {
    var c := s.clients[a.i];
    match a
    case Begin(i) => s.(clients := s.clients[i := AfterRead(c.want, 0)])
    case Read(i, n) => s.(pipe := s.pipe - n, clients := s.clients[i := AfterRead(c.want, c.has + n)])
    case Drop(i) => s.(clients := s.clients[i := AfterWrite(c.want, c.has)])
    case Write(i, n) => s.(pipe := s.pipe + n, clients := s.clients[i := AfterWrite(c.want, c.has - n)])
    case Kill(i) =>
      s.(lost := s.lost + c.has, clients := s.clients[i := Client(c.want, Killed(c.phase.Running?, c.has), 0)])
  }

  /** The state after a run, if every action of it was enabled in turn. */
  function Run(s: State, actions: seq<Action>): (r: Option<State>)
    decreases |actions|
  {
    if actions == [] then Some(s)
    else if !Enabled(s, actions[0]) then None
    else Run(Apply(s, actions[0]), actions[1..])
  }

  predicate NoneKilled(actions: seq<Action>) {
    forall a :: a in actions ==> !a.Kill?
  }

  // ---- Sums over the clients ------------------------------------------------------

  function Sum(xs: seq<int>): int {
    if xs == [] then 0 else xs[0] + Sum(xs[1..])
  }

  lemma {:induction false} SumUpdate(xs: seq<int>, i: nat, x: int)
    requires i < |xs|
    ensures Sum(xs[i := x]) == Sum(xs) - xs[i] + x
  {
    if i == 0 {
      assert xs[0 := x][1..] == xs[1..];
    } else {
      assert xs[i := x][1..] == xs[1..][i - 1 := x];
      SumUpdate(xs[1..], i - 1, x);
    }
  }

  lemma {:induction false} SumMonotone(xs: seq<int>, ys: seq<int>)
    requires |xs| == |ys| && forall i :: 0 <= i < |xs| ==> xs[i] <= ys[i]
    ensures Sum(xs) <= Sum(ys)
  {
    if xs != [] {
      SumMonotone(xs[1..], ys[1..]);
    }
  }

  function Holdings(clients: seq<Client>): (hs: seq<int>)
    ensures |hs| == |clients| && forall i :: 0 <= i < |hs| ==> hs[i] == clients[i].has
  {
    seq(|clients|, i requires 0 <= i < |clients| => clients[i].has)
  }

  function Took(c: Client): nat {
    if c.phase.Killed? then c.phase.took else 0
  }

  function Taken(clients: seq<Client>): (ts: seq<int>)
    ensures |ts| == |clients| && forall i :: 0 <= i < |ts| ==> ts[i] == Took(clients[i])
  {
    seq(|clients|, i requires 0 <= i < |clients| => Took(clients[i]))
  }

  /** The tokens held by clients, whether read for a VM yet to start or one that runs. */
  function Held(s: State): int {
    Sum(Holdings(s.clients))
  }

  // ---- Conservation ---------------------------------------------------------------

  predicate ClientOk(c: Client) {
    match c.phase
    case Idle => c.has == 0
    case Reading => c.has < c.want
    case Running => c.has == c.want
    case Returning => 0 < c.has <= c.want
    case Finished => c.has == 0
    case Killed(orphan, took) => c.has == 0 && took <= c.want && (orphan ==> took == c.want)
  }

  ghost predicate Inv(s: State, tokens: nat, wants: seq<nat>) {
    && |s.clients| == |wants|
    && (forall i :: 0 <= i < |wants| ==> s.clients[i].want == wants[i] && ClientOk(s.clients[i]))
    && s.pipe + Held(s) + s.lost == tokens
    && s.lost == Sum(Taken(s.clients))
  }

  lemma HeldUpdate(s: State, i: nat, c: Client)
    requires i < |s.clients|
    ensures Held(s.(clients := s.clients[i := c])) == Held(s) - s.clients[i].has + c.has
  {
    assert Holdings(s.clients[i := c]) == Holdings(s.clients)[i := c.has];
    SumUpdate(Holdings(s.clients), i, c.has);
  }

  lemma TakenUpdate(clients: seq<Client>, i: nat, c: Client)
    requires i < |clients|
    ensures Sum(Taken(clients[i := c])) == Sum(Taken(clients)) - Took(clients[i]) + Took(c)
  {
    assert Taken(clients[i := c]) == Taken(clients)[i := Took(c)];
    SumUpdate(Taken(clients), i, Took(c));
  }

  lemma {:induction false} SumZero(xs: seq<int>)
    requires forall x :: x in xs ==> x == 0
    ensures Sum(xs) == 0
  {
    if xs != [] {
      assert xs[0] in xs;
      assert forall x :: x in xs[1..] ==> x in xs;
      SumZero(xs[1..]);
    }
  }

  lemma InitialInv(tokens: nat, wants: seq<nat>)
    ensures Inv(Initial(tokens, wants), tokens, wants)
  {
    SumZero(Holdings(Initial(tokens, wants).clients));
    SumZero(Taken(Initial(tokens, wants).clients));
  }

  lemma ApplyKeepsInv(s: State, a: Action, tokens: nat, wants: seq<nat>)
    requires Inv(s, tokens, wants) && Enabled(s, a)
    ensures Inv(Apply(s, a), tokens, wants)
    ensures !a.Kill? ==> Apply(s, a).lost == s.lost
  {
    var s' := Apply(s, a);
    HeldUpdate(s, a.i, s'.clients[a.i]);
    TakenUpdate(s.clients, a.i, s'.clients[a.i]);
    assert s'.clients == s.clients[a.i := s'.clients[a.i]];
  }

  lemma {:induction false} RunKeepsInv(s: State, actions: seq<Action>, tokens: nat, wants: seq<nat>)
    requires Inv(s, tokens, wants) && Run(s, actions).Some?
    ensures Inv(Run(s, actions).value, tokens, wants)
    ensures NoneKilled(actions) ==> Run(s, actions).value.lost == s.lost
    decreases |actions|
  {
    if actions != [] {
      ApplyKeepsInv(s, actions[0], tokens, wants);
      assert actions[0] in actions;
      assert forall a :: a in actions[1..] ==> a in actions;
      RunKeepsInv(Apply(s, actions[0]), actions[1..], tokens, wants);
    }
  }

  /** In every interleaving the tokens in the pipe, those read by blocked clients and those
      held for running VMs are exactly the tokens created, less those that killed clients
      took with them. */
  lemma TokensConserved(tokens: nat, wants: seq<nat>, actions: seq<Action>)
    requires Run(Initial(tokens, wants), actions).Some?
    ensures var s := Run(Initial(tokens, wants), actions).value;
            s.pipe + Held(s) + s.lost == tokens && (NoneKilled(actions) ==> s.lost == 0)
  {
    InitialInv(tokens, wants);
    RunKeepsInv(Initial(tokens, wants), actions, tokens, wants);
  }

  /** Nonnegative parts of a sum stay below it. */
  lemma {:induction false} PartOfSum(xs: seq<int>, i: nat)
    requires i < |xs| && forall x :: x in xs ==> x >= 0
    ensures 0 <= xs[i] <= Sum(xs)
  {
    assert xs[0] in xs;
    assert forall x :: x in xs[1..] ==> x in xs;
    if i > 0 {
      PartOfSum(xs[1..], i - 1);
    } else if |xs| > 1 {
      PartOfSum(xs[1..], 0);
    }
  }

  /** A pipe with room for all tokens has room for any release, so returning tokens never
      blocks. */
  lemma ReleaseFits(tokens: nat, wants: seq<nat>, actions: seq<Action>, i: nat)
    requires Run(Initial(tokens, wants), actions).Some? && i < |wants|
    ensures var s := Run(Initial(tokens, wants), actions).value;
            i < |s.clients| && s.pipe + s.clients[i].has <= tokens
  {
    InitialInv(tokens, wants);
    RunKeepsInv(Initial(tokens, wants), actions, tokens, wants);
    var s := Run(Initial(tokens, wants), actions).value;
    PartOfSum(Holdings(s.clients), i);
  }

  // ---- Deadlock -------------------------------------------------------------------

  /** Somebody waits, the pipe is empty, and nobody holds tokens that will come back. */
  ghost predicate Deadlocked(s: State) {
    && s.pipe == 0
    && (exists i :: 0 <= i < |s.clients| && s.clients[i].phase.Reading?)
    && (forall i :: 0 <= i < |s.clients| ==> !s.clients[i].phase.Running? && !s.clients[i].phase.Returning?)
  }

  function Slacks(wants: seq<nat>): (ss: seq<int>)
    ensures |ss| == |wants| && forall i :: 0 <= i < |ss| ==> ss[i] == if wants[i] == 0 then 0 else wants[i] - 1
  {
    seq(|wants|, i requires 0 <= i < |wants| => if wants[i] == 0 then 0 else wants[i] - 1)
  }

  /** The most tokens that clients can hold with every one of them still waiting. */
  function Slack(wants: seq<nat>): int {
    Sum(Slacks(wants))
  }

  lemma DeadlockNeedsSlack(s: State, tokens: nat, wants: seq<nat>)
    requires Inv(s, tokens, wants) && Deadlocked(s)
    ensures tokens - s.lost <= Slack(wants)
  {
    SumMonotone(Holdings(s.clients), Slacks(wants));
  }

  /** What a client can take while still waiting for one token. */
  function Bite(s: State, i: nat): (n: nat)
    requires i < |s.clients| && s.clients[i].want > 0
    ensures n <= s.pipe && n < s.clients[i].want
  {
    if s.pipe < s.clients[i].want - 1 then s.pipe else s.clients[i].want - 1
  }

  function Bitten(s: State, i: nat): State
    requires i < |s.clients| && s.clients[i].want > 0
  {
    var want := s.clients[i].want;
    State(s.pipe - Bite(s, i), s.lost, s.clients[i := Client(want, Reading, Bite(s, i))])
  }

  function BiteActions(s: State, i: nat): seq<Action>
    requires i < |s.clients| && s.clients[i].want > 0
  {
    if Bite(s, i) == 0 then [Begin(i)] else [Begin(i), Read(i, Bite(s, i))]
  }

  lemma BiteRuns(s: State, i: nat)
    requires i < |s.clients| && s.clients[i].want > 0 && s.clients[i].phase.Idle? && s.clients[i].has == 0
    ensures Run(s, BiteActions(s, i)) == Some(Bitten(s, i))
  {
    var s1 := Apply(s, Begin(i));
    if Bite(s, i) == 0 {
      assert s1 == Bitten(s, i);
      assert [Begin(i)][1..] == [];
    } else {
      var read := Read(i, Bite(s, i));
      assert Apply(s1, read) == Bitten(s, i);
      assert Run(s1, [read]) == Some(Bitten(s, i));
      assert [Begin(i), read][1..] == [read];
    }
  }

  /** Each client in turn takes one token less than it wants, as far as the pipe goes. */
  function Starve(s: State, i: nat): (actions: seq<Action>)
    requires i <= |s.clients|
    ensures NoneKilled(actions)
    decreases |s.clients| - i
  {
    if i == |s.clients| then []
    else if s.clients[i].want == 0 then Starve(s, i + 1)
    else BiteActions(s, i) + Starve(Bitten(s, i), i + 1)
  }

  lemma StarveUnfold(s: State, i: nat)
    requires i <= |s.clients|
    ensures Starve(s, i) ==
            if i == |s.clients| then []
            else if s.clients[i].want == 0 then Starve(s, i + 1)
            else BiteActions(s, i) + Starve(Bitten(s, i), i + 1)
  {
  }

  function Drained(pipe: nat, slack: int): int {
    if slack >= pipe then 0 else pipe - slack
  }

  lemma {:induction false} RunAppend(s: State, a: seq<Action>, b: seq<Action>)
    requires Run(s, a).Some?
    ensures Run(s, a + b) == Run(Run(s, a).value, b)
    decreases |a|
  {
    if a == [] {
      assert a + b == b;
    } else {
      assert (a + b)[1..] == a[1..] + b;
      RunAppend(Apply(s, a[0]), a[1..], b);
    }
  }

  lemma SlackStep(wants: seq<nat>, i: nat)
    requires i <= |wants|
    ensures i < |wants| ==>
              Slack(wants[i..]) == (if wants[i] == 0 then 0 else wants[i] - 1) + Slack(wants[i + 1..])
    ensures Slack(wants[i..]) >= 0
    ensures i == |wants| ==> Slack(wants[i..]) == 0
    decreases |wants| - i
  {
    if i < |wants| {
      assert Slacks(wants[i..]) == [if wants[i] == 0 then 0 else wants[i] - 1] + Slacks(wants[i + 1..]);
      SlackStep(wants, i + 1);
    }
  }

  ghost predicate StarvedTo(s: State, i: nat, wants: seq<nat>, r: Option<State>) {
    && r.Some? && |r.value.clients| == |s.clients| && i <= |s.clients| == |wants|
    && r.value.pipe == Drained(s.pipe, Slack(wants[i..]))
    && (forall j :: 0 <= j < i ==> r.value.clients[j] == s.clients[j])
    && (forall j :: i <= j < |s.clients| ==>
          if wants[j] == 0 then r.value.clients[j].phase.Idle? else r.value.clients[j].phase.Reading?)
  }

  /** Starving the clients after `i`, once `i` has bitten, starves those from `i` on. */
  lemma StarveAfterBite(s: State, i: nat, wants: seq<nat>, r: Option<State>)
    requires i < |s.clients| == |wants| && s.clients[i].want == wants[i] > 0 && s.clients[i].phase.Idle?
    requires StarvedTo(Bitten(s, i), i + 1, wants, r)
    ensures StarvedTo(s, i, wants, r)
  {
    SlackStep(wants, i);
    SlackStep(wants, i + 1);
    hide Slack;
  }

  lemma StarveAfterSkip(s: State, i: nat, wants: seq<nat>, r: Option<State>)
    requires i < |s.clients| == |wants| && wants[i] == 0 && s.clients[i].phase.Idle?
    requires StarvedTo(s, i + 1, wants, r)
    ensures StarvedTo(s, i, wants, r)
  {
    SlackStep(wants, i);
    hide Slack;
  }

  lemma {:induction false} StarveRuns(s: State, i: nat, wants: seq<nat>)
    requires i <= |s.clients| == |wants|
    requires forall j :: 0 <= j < |wants| ==> s.clients[j].want == wants[j]
    requires forall j :: i <= j < |s.clients| ==> s.clients[j].phase.Idle? && s.clients[j].has == 0
    ensures StarvedTo(s, i, wants, Run(s, Starve(s, i)))
    decreases |s.clients| - i
  {
    assert Run(s, []) == Some(s);
    StarveUnfold(s, i);
    if i == |wants| {
      SlackStep(wants, i);
    } else if wants[i] == 0 {
      StarveRuns(s, i + 1, wants);
      hide Run, Starve, StarvedTo;
      StarveAfterSkip(s, i, wants, Run(s, Starve(s, i + 1)));
    } else {
      BiteRuns(s, i);
      StarveRuns(Bitten(s, i), i + 1, wants);
      RunAppend(s, BiteActions(s, i), Starve(Bitten(s, i), i + 1));
      hide Run, BiteActions, Starve, StarvedTo;
      StarveAfterBite(s, i, wants, Run(Bitten(s, i), Starve(Bitten(s, i), i + 1)));
    }
  }

  /** The exact deadlock condition when a read may return less than the pipe holds, as POSIX
      allows: clients that are never killed can end up all waiting for one another if and only
      if their requests, each less one, add up to all the tokens. Without short reads the
      condition is necessary but not sufficient; see `PipeReads`. */
  lemma DeadlockIffSlack(tokens: nat, wants: seq<nat>)
    requires exists i :: 0 <= i < |wants| && wants[i] > 0
    ensures (exists actions ::
               NoneKilled(actions) && Run(Initial(tokens, wants), actions).Some?
               && Deadlocked(Run(Initial(tokens, wants), actions).value))
       <==> Slack(wants) >= tokens
  {
    var s := Initial(tokens, wants);
    InitialInv(tokens, wants);
    if actions :| NoneKilled(actions) && Run(s, actions).Some? && Deadlocked(Run(s, actions).value) {
      RunKeepsInv(s, actions, tokens, wants);
      DeadlockNeedsSlack(Run(s, actions).value, tokens, wants);
    }
    if Slack(wants) >= tokens {
      StarveRuns(s, 0, wants);
      assert wants[0..] == wants;
      var actions := Starve(s, 0);
      var i :| 0 <= i < |wants| && wants[i] > 0;
      assert Run(s, actions).value.clients[i].phase.Reading?;
      assert Deadlocked(Run(s, actions).value);
    }
  }

  // ---- Progress -------------------------------------------------------------------

  /** An upper bound on the steps a client still takes. */
  function Work(c: Client): int {
    match c.phase
    case Idle => 2 * c.want + 3
    case Reading => 2 * c.want - c.has + 2
    case Running => c.want + 2
    case Returning => c.has + 1
    case Finished => 0
    case Killed(_, _) => 0
  }

  function Works(clients: seq<Client>): (ws: seq<int>)
    ensures |ws| == |clients| && forall i :: 0 <= i < |ws| ==> ws[i] == Work(clients[i])
  {
    seq(|clients|, i requires 0 <= i < |clients| => Work(clients[i]))
  }

  function TotalWork(s: State): int {
    Sum(Works(s.clients))
  }

  lemma ApplyReducesWork(s: State, a: Action, tokens: nat, wants: seq<nat>)
    requires Inv(s, tokens, wants) && Enabled(s, a)
    ensures TotalWork(Apply(s, a)) < TotalWork(s)
  {
    var s' := Apply(s, a);
    assert Works(s'.clients) == Works(s.clients)[a.i := Work(s'.clients[a.i])];
    SumUpdate(Works(s.clients), a.i, Work(s'.clients[a.i]));
  }

  lemma WorkNonNegative(s: State, tokens: nat, wants: seq<nat>)
    requires Inv(s, tokens, wants)
    ensures TotalWork(s) >= 0
  {
    var zeros := seq(|s.clients|, i => 0);
    SumZero(zeros);
    SumMonotone(zeros, Works(s.clients));
  }

  /** No run goes on forever: its length is bounded by the requests alone. */
  lemma {:induction false} RunsAreBounded(s: State, actions: seq<Action>, tokens: nat, wants: seq<nat>)
    requires Inv(s, tokens, wants) && Run(s, actions).Some?
    ensures |actions| <= TotalWork(s)
    decreases |actions|
  {
    WorkNonNegative(s, tokens, wants);
    if actions != [] {
      ApplyKeepsInv(s, actions[0], tokens, wants);
      ApplyReducesWork(s, actions[0], tokens, wants);
      RunsAreBounded(Apply(s, actions[0]), actions[1..], tokens, wants);
    }
  }

  predicate AllFinished(s: State) {
    forall i :: 0 <= i < |s.clients| ==> s.clients[i].phase.Finished?
  }

  ghost predicate NobodyKilled(s: State) {
    s.lost == 0 && forall i :: 0 <= i < |s.clients| ==> !s.clients[i].phase.Killed?
  }

  /** With too little slack to deadlock, some client can always move until all are done. */
  lemma SomeoneCanMove(s: State, tokens: nat, wants: seq<nat>) returns (a: Action)
    requires Inv(s, tokens, wants) && NobodyKilled(s) && Slack(wants) < tokens && !AllFinished(s)
    ensures Enabled(s, a) && !a.Kill?
  {
    if i :| 0 <= i < |s.clients| && s.clients[i].phase.Idle? {
      a := Begin(i);
    } else if i :| 0 <= i < |s.clients| && s.clients[i].phase.Running? {
      a := Drop(i);
    } else if i :| 0 <= i < |s.clients| && s.clients[i].phase.Returning? {
      a := Write(i, s.clients[i].has);
    } else {
      var i :| 0 <= i < |s.clients| && !s.clients[i].phase.Finished?;
      if s.pipe == 0 {
        DeadlockNeedsSlack(s, tokens, wants);
      }
      a := Read(i, 1);
    }
  }

  lemma {:induction false} KillFreeRun(s: State, actions: seq<Action>, tokens: nat, wants: seq<nat>)
    requires Inv(s, tokens, wants) && NobodyKilled(s) && NoneKilled(actions) && Run(s, actions).Some?
    ensures Inv(Run(s, actions).value, tokens, wants) && NobodyKilled(Run(s, actions).value)
    decreases |actions|
  {
    if actions != [] {
      assert actions[0] in actions;
      assert forall a :: a in actions[1..] ==> a in actions;
      ApplyKeepsInv(s, actions[0], tokens, wants);
      KillFreeRun(Apply(s, actions[0]), actions[1..], tokens, wants);
    }
  }

  lemma {:induction false} FinishFrom(s: State, tokens: nat, wants: seq<nat>) returns (more: seq<Action>)
    requires Inv(s, tokens, wants) && NobodyKilled(s) && Slack(wants) < tokens
    ensures NoneKilled(more) && Run(s, more).Some? && AllFinished(Run(s, more).value)
    decreases TotalWork(s)
  {
    WorkNonNegative(s, tokens, wants);
    if AllFinished(s) {
      more := [];
    } else {
      var a := SomeoneCanMove(s, tokens, wants);
      ApplyKeepsInv(s, a, tokens, wants);
      ApplyReducesWork(s, a, tokens, wants);
      WorkNonNegative(Apply(s, a), tokens, wants);
      var rest := FinishFrom(Apply(s, a), tokens, wants);
      more := [a] + rest;
      assert more[1..] == rest;
    }
  }

  /** Below the deadlock bound, every run without kills can be carried on until every client
      has had its VM and given its tokens back. */
  lemma EveryRunCanFinish(tokens: nat, wants: seq<nat>, actions: seq<Action>)
    requires Slack(wants) < tokens
    requires NoneKilled(actions) && Run(Initial(tokens, wants), actions).Some?
    ensures exists more :: NoneKilled(more) && Run(Initial(tokens, wants), actions + more).Some?
                           && AllFinished(Run(Initial(tokens, wants), actions + more).value)
  {
    InitialInv(tokens, wants);
    KillFreeRun(Initial(tokens, wants), actions, tokens, wants);
    var more := FinishFrom(Run(Initial(tokens, wants), actions).value, tokens, wants);
    RunAppend(Initial(tokens, wants), actions, more);
  }

  /** Below the bound a run that cannot go on is a run that has finished. */
  lemma StuckOnlyWhenFinished(tokens: nat, wants: seq<nat>, actions: seq<Action>)
    requires Slack(wants) < tokens
    requires NoneKilled(actions) && Run(Initial(tokens, wants), actions).Some?
    requires forall a: Action :: Enabled(Run(Initial(tokens, wants), actions).value, a) ==> a.Kill?
    ensures AllFinished(Run(Initial(tokens, wants), actions).value)
  {
    InitialInv(tokens, wants);
    KillFreeRun(Initial(tokens, wants), actions, tokens, wants);
    var s := Run(Initial(tokens, wants), actions).value;
    if !AllFinished(s) {
      var a := SomeoneCanMove(s, tokens, wants);
    }
  }

  // ---- Memory ---------------------------------------------------------------------

  const TOKEN_MIB := 128
  const U32_LIMIT := 0x1_0000_0000

  /** The tokens taken for a VM: its memory in token sizes, rounded up with 32-bit
      arithmetic. */
  function TokensFor(memoryMib: nat): nat
    requires memoryMib < U32_LIMIT
  {
    ((memoryMib + TOKEN_MIB - 1) % U32_LIMIT) / TOKEN_MIB
  }

  /** The rounding covers the memory exactly when the 32-bit sum does not wrap, and is then
      the least number of tokens that does. */
  lemma TokensCoverMemory(memoryMib: nat)
    requires memoryMib < U32_LIMIT
    ensures memoryMib <= TokensFor(memoryMib) * TOKEN_MIB <==> memoryMib + TOKEN_MIB - 1 < U32_LIMIT
    ensures memoryMib + TOKEN_MIB - 1 < U32_LIMIT ==> TokensFor(memoryMib) * TOKEN_MIB < memoryMib + TOKEN_MIB
  {
  }

  /** The client's VM is up, with or without its client. */
  predicate VmUp(c: Client) {
    c.phase.Running? || (c.phase.Killed? && c.phase.orphan)
  }

  /** Memory of the VMs that run, those that outlived their clients included. */
  function RunningMemory(s: State, mems: seq<nat>): (ms: seq<int>)
    requires |mems| == |s.clients|
    ensures |ms| == |mems| && forall i :: 0 <= i < |ms| ==> ms[i] == if VmUp(s.clients[i]) then mems[i] else 0
  {
    seq(|mems|, i requires 0 <= i < |mems| => if VmUp(s.clients[i]) then mems[i] else 0)
  }

  /** The tokens that stand for a client: those it holds and those it took along. */
  function Charges(clients: seq<Client>): (cs: seq<int>)
    ensures |cs| == |clients| && forall i :: 0 <= i < |cs| ==> cs[i] == clients[i].has + Took(clients[i])
  {
    seq(|clients|, i requires 0 <= i < |clients| => clients[i].has + Took(clients[i]))
  }

  lemma {:induction false} ChargesSum(clients: seq<Client>)
    ensures Sum(Charges(clients)) == Sum(Holdings(clients)) + Sum(Taken(clients))
  {
    if clients != [] {
      ChargesSum(clients[1..]);
      assert Charges(clients)[1..] == Charges(clients[1..]);
      assert Holdings(clients)[1..] == Holdings(clients[1..]);
      assert Taken(clients)[1..] == Taken(clients[1..]);
    }
  }

  lemma {:induction false} SumScaled(xs: seq<int>, ys: seq<int>, k: int)
    requires |xs| == |ys| && forall i :: 0 <= i < |xs| ==> ys[i] == k * xs[i]
    ensures Sum(ys) == k * Sum(xs)
  {
    if xs != [] {
      SumScaled(xs[1..], ys[1..], k);
    }
  }

  /** Whatever the interleaving and whoever is killed, the VMs that run at one time, orphaned
      ones included, never take more memory than the tokens stand for. */
  lemma MemoryBounded(tokens: nat, mems: seq<nat>, wants: seq<nat>, actions: seq<Action>)
    requires |wants| == |mems|
    requires forall i :: 0 <= i < |mems| ==> mems[i] + TOKEN_MIB - 1 < U32_LIMIT && wants[i] == TokensFor(mems[i])
    requires Run(Initial(tokens, wants), actions).Some?
    ensures var s := Run(Initial(tokens, wants), actions).value;
            |s.clients| == |mems| && Sum(RunningMemory(s, mems)) <= tokens * TOKEN_MIB
  {
    InitialInv(tokens, wants);
    RunKeepsInv(Initial(tokens, wants), actions, tokens, wants);
    var s := Run(Initial(tokens, wants), actions).value;
    var cs := Charges(s.clients);
    var scaled := seq(|cs|, i requires 0 <= i < |cs| => TOKEN_MIB * cs[i]);
    forall i | 0 <= i < |mems|
      ensures RunningMemory(s, mems)[i] <= scaled[i]
    {
      TokensCoverMemory(mems[i]);
      assert ClientOk(s.clients[i]) && s.clients[i].want == wants[i] == TokensFor(mems[i]);
      assert cs[i] == s.clients[i].has + Took(s.clients[i]) && scaled[i] == TOKEN_MIB * cs[i];
    }
    SumMonotone(RunningMemory(s, mems), scaled);
    SumScaled(cs, scaled, TOKEN_MIB);
    ChargesSum(s.clients);
  }

  // ---- The calls of one process ---------------------------------------------------

  class VmJobserver {
    var pipe: nat

    /** A new pipe filled with its tokens. */
    constructor (tokens: nat)
      ensures pipe == tokens
    {
      pipe := tokens;
    }

    /** Reads until `count` tokens are there or the pipe is empty; in the second case the
        call blocks and keeps what it has. The sizes of the single reads do not matter. */
    method Acquire(count: nat) returns (got: nat)
      modifies this
      ensures got == (if old(pipe) < count then old(pipe) else count)
      ensures pipe == old(pipe) - got
    {
      got := 0;
      while got < count && pipe > 0
        invariant got <= count && pipe + got == old(pipe)
        decreases count - got
      {
        var n :| 0 < n <= pipe && got + n <= count;
        pipe := pipe - n;
        got := got + n;
      }
    }

    /** Dropping a permit writes its tokens back. */
    method Release(count: nat)
      modifies this
      ensures pipe == old(pipe) + count
    {
      var left := count;
      while left > 0
        invariant 0 <= left <= count && pipe + left == old(pipe) + count
      {
        var n :| 0 < n <= left;
        pipe := pipe + n;
        left := left - n;
      }
    }
  }
}
