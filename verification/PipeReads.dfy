/** Runs of the jobserver on a pipe whose reads are never short: a read takes everything that
    is missing and available, and a release is written at once. Deadlock is rarer here than
    under arbitrary reads. */
module PipeReads {
  import opened Wrappers
  import opened Jobserver

  /** A read takes the smaller of what is missing and what the pipe holds. */
  predicate Whole(s: State, a: Action)
    requires Enabled(s, a)
  {
    var c := s.clients[a.i];
    match a
    case Read(_, n) => n == if s.pipe < c.want - c.has then s.pipe else c.want - c.has
    case Write(_, n) => n == c.has
    case Kill(_) => false
    case _ => true
  }

  function WholeRun(s: State, actions: seq<Action>): (r: Option<State>)
    decreases |actions|
  {
    if actions == [] then Some(s)
    else if !Enabled(s, actions[0]) || !Whole(s, actions[0]) then None
    else WholeRun(Apply(s, actions[0]), actions[1..])
  }

  /** Some run of whole reads and writes, without kills, ends in a deadlock. */
  ghost predicate CanDeadlock(tokens: nat, wants: seq<nat>) {
    exists actions :: WholeRun(Initial(tokens, wants), actions).Some?
                      && Deadlocked(WholeRun(Initial(tokens, wants), actions).value)
  }

  lemma {:induction false} WholeRunIsRun(s: State, actions: seq<Action>)
    requires WholeRun(s, actions).Some?
    ensures Run(s, actions) == WholeRun(s, actions) && NoneKilled(actions)
    decreases |actions|
  {
    if actions != [] {
      WholeRunIsRun(Apply(s, actions[0]), actions[1..]);
      assert actions == [actions[0]] + actions[1..];
    }
  }

  lemma {:induction false} WholeRunAppend(s: State, a: seq<Action>, b: seq<Action>)
    requires WholeRun(s, a).Some?
    ensures WholeRun(s, a + b) == WholeRun(WholeRun(s, a).value, b)
    decreases |a|
  {
    if a == [] {
      assert a + b == b;
    } else {
      assert (a + b)[1..] == a[1..] + b;
      WholeRunAppend(Apply(s, a[0]), a[1..], b);
    }
  }

  lemma WholeStep(s: State, a: Action)
    requires Enabled(s, a) && Whole(s, a)
    ensures WholeRun(s, [a]) == Some(Apply(s, a))
  {
    assert [a][1..] == [];
  }

  /** What holds of all runs holds of these: a deadlock needs the slack. */
  lemma WholeDeadlockNeedsSlack(tokens: nat, wants: seq<nat>)
    requires CanDeadlock(tokens, wants)
    ensures Slack(wants) >= tokens
  {
    var actions :| WholeRun(Initial(tokens, wants), actions).Some?
                   && Deadlocked(WholeRun(Initial(tokens, wants), actions).value);
    WholeRunIsRun(Initial(tokens, wants), actions);
    InitialInv(tokens, wants);
    RunKeepsInv(Initial(tokens, wants), actions, tokens, wants);
    DeadlockNeedsSlack(Run(Initial(tokens, wants), actions).value, tokens, wants);
  }

  // ---- Somebody is served first ---------------------------------------------------

  predicate Served(c: Client) {
    c.want > 0 && (c.phase.Running? || c.phase.Returning? || c.phase.Finished?)
  }

  /** Nothing was read yet, or somebody who read got all it wanted. */
  ghost predicate ServedOrFull(s: State, tokens: nat) {
    s.pipe == tokens || exists i :: 0 <= i < |s.clients| && Served(s.clients[i])
  }

  lemma WholeStepServes(s: State, a: Action, tokens: nat, wants: seq<nat>)
    requires Inv(s, tokens, wants) && ServedOrFull(s, tokens) && Enabled(s, a) && Whole(s, a)
    requires forall i :: 0 <= i < |wants| ==> wants[i] <= tokens
    ensures ServedOrFull(Apply(s, a), tokens)
  {
    var s' := Apply(s, a);
    if i :| 0 <= i < |s.clients| && Served(s.clients[i]) {
      assert Served(s'.clients[i]);
    } else if a.Read? {
      assert Served(s'.clients[a.i]);
    }
  }

  lemma {:induction false} WholeRunServes(s: State, actions: seq<Action>, tokens: nat, wants: seq<nat>)
    requires Inv(s, tokens, wants) && ServedOrFull(s, tokens) && WholeRun(s, actions).Some?
    requires forall i :: 0 <= i < |wants| ==> wants[i] <= tokens
    ensures Inv(WholeRun(s, actions).value, tokens, wants) && ServedOrFull(WholeRun(s, actions).value, tokens)
    ensures WholeRun(s, actions).value.lost == s.lost
    decreases |actions|
  {
    if actions != [] {
      ApplyKeepsInv(s, actions[0], tokens, wants);
      WholeStepServes(s, actions[0], tokens, wants);
      WholeRunServes(Apply(s, actions[0]), actions[1..], tokens, wants);
    }
  }

  /** When no request is larger than the number of tokens, somebody has come and gone before
      the others block one another, so their slack alone must reach the tokens. */
  lemma WholeDeadlockNeedsMore(tokens: nat, wants: seq<nat>)
    requires CanDeadlock(tokens, wants) && forall i :: 0 <= i < |wants| ==> wants[i] <= tokens
    ensures exists i :: 0 <= i < |wants| && wants[i] > 0 && Slack(wants[i := 0]) >= tokens
  {
    var start := Initial(tokens, wants);
    var actions :| WholeRun(start, actions).Some? && Deadlocked(WholeRun(start, actions).value);
    InitialInv(tokens, wants);
    WholeRunServes(start, actions, tokens, wants);
    var s := WholeRun(start, actions).value;
    var j :| 0 <= j < |s.clients| && s.clients[j].phase.Reading?;
    assert wants[j] > 0;
    var i :| 0 <= i < |s.clients| && Served(s.clients[i]);
    SumMonotone(Holdings(s.clients), Slacks(wants[i := 0]));
  }

  // ---- Requests of one size -------------------------------------------------------

  /** What is left of `x` tokens when requests of size `w` are taken out. */
  function Loose(x: nat, w: nat): (r: nat)
    requires w > 0
    ensures r < w && r <= x
  {
    if x < w then x else Loose(x - w, w)
  }

  lemma {:induction false} LooseSum(x: nat, r: nat, w: nat)
    requires r < w && Loose(x, w) == 0
    ensures Loose(x + r, w) == r
  {
    if x >= w {
      LooseSum(x - w, r, w);
    }
  }

  predicate Partial(c: Client) {
    c.phase.Reading? && c.has > 0
  }

  ghost predicate SomePartial(s: State) {
    exists i :: 0 <= i < |s.clients| && Partial(s.clients[i])
  }

  /** At most one client waits with tokens in its hands: those that do not fill a request.
      While it does, the pipe holds whole requests only. */
  ghost predicate OneRemainder(s: State, w: nat, remainder: nat)
    requires w > 0
  {
    && (forall i :: 0 <= i < |s.clients| ==>
          && s.clients[i].want in {0, w} && s.clients[i].has in {0, remainder, w}
          && (s.clients[i].phase.Returning? ==> s.clients[i].has == w))
    && (forall i, j :: 0 <= i < |s.clients| && 0 <= j < |s.clients| && Partial(s.clients[i]) && Partial(s.clients[j])
          ==> i == j)
    && Loose(s.pipe, w) == if SomePartial(s) then 0 else remainder
  }

  /** A read by a client that holds nothing: it gets all it wants, or it is the one that
      takes the remainder. */
  lemma FirstReadKeepsRemainder(s: State, a: Action, tokens: nat, wants: seq<nat>, w: nat)
    requires 0 < w && Inv(s, tokens, wants) && OneRemainder(s, w, Loose(tokens, w)) && Enabled(s, a) && Whole(s, a)
    requires a.Read? && !Partial(s.clients[a.i])
    ensures OneRemainder(Apply(s, a), w, Loose(tokens, w))
  {
    var s' := Apply(s, a);
    OthersStay(s, a);
    assert Partial(s'.clients[a.i]) <==> s.pipe < w;
  }

  /** A read by the client that holds the remainder: it gets all it wants and leaves the
      remainder in the pipe. */
  lemma SecondReadKeepsRemainder(s: State, a: Action, tokens: nat, wants: seq<nat>, w: nat)
    requires 0 < w && Inv(s, tokens, wants) && OneRemainder(s, w, Loose(tokens, w)) && Enabled(s, a) && Whole(s, a)
    requires a.Read? && Partial(s.clients[a.i])
    ensures OneRemainder(Apply(s, a), w, Loose(tokens, w))
  {
    var s' := Apply(s, a);
    OthersStay(s, a);
    assert SomePartial(s) && s.pipe >= w;
    LooseSum(s.pipe - w, Loose(tokens, w), w);
    assert !Partial(s'.clients[a.i]);
  }

  lemma OthersStay(s: State, a: Action)
    requires Enabled(s, a)
    ensures forall i :: 0 <= i < |s.clients| && i != a.i ==> Apply(s, a).clients[i] == s.clients[i]
    ensures SomePartial(Apply(s, a)) <==>
            Partial(Apply(s, a).clients[a.i]) || exists i :: 0 <= i < |s.clients| && i != a.i && Partial(s.clients[i])
  {
    var s' := Apply(s, a);
    assert forall i :: 0 <= i < |s.clients| && i != a.i ==> s'.clients[i] == s.clients[i];
  }

  lemma WholeStepKeepsRemainder(s: State, a: Action, tokens: nat, wants: seq<nat>, w: nat)
    requires 0 < w && Inv(s, tokens, wants) && OneRemainder(s, w, Loose(tokens, w)) && Enabled(s, a) && Whole(s, a)
    ensures OneRemainder(Apply(s, a), w, Loose(tokens, w))
  {
    if a.Read? {
      if Partial(s.clients[a.i]) {
        SecondReadKeepsRemainder(s, a, tokens, wants, w);
      } else {
        FirstReadKeepsRemainder(s, a, tokens, wants, w);
      }
    } else {
      OthersStay(s, a);
      assert ClientOk(s.clients[a.i]);
      assert !Partial(s.clients[a.i]) && !Partial(Apply(s, a).clients[a.i]);
      assert SomePartial(s) <==> SomePartial(Apply(s, a));
      assert a.Write? ==> Loose(s.pipe + w, w) == Loose(s.pipe, w);
    }
  }

  lemma {:induction false} WholeRunKeepsRemainder(s: State, actions: seq<Action>, tokens: nat, wants: seq<nat>, w: nat)
    requires 0 < w && Inv(s, tokens, wants) && OneRemainder(s, w, Loose(tokens, w)) && WholeRun(s, actions).Some?
    ensures Inv(WholeRun(s, actions).value, tokens, wants)
    ensures OneRemainder(WholeRun(s, actions).value, w, Loose(tokens, w))
    ensures WholeRun(s, actions).value.lost == s.lost
    decreases |actions|
  {
    hide OneRemainder;
    if actions != [] {
      ApplyKeepsInv(s, actions[0], tokens, wants);
      WholeStepKeepsRemainder(s, actions[0], tokens, wants, w);
      WholeRunKeepsRemainder(Apply(s, actions[0]), actions[1..], tokens, wants, w);
    }
  }

  lemma {:induction false} SumOneNonZero(xs: seq<int>, bound: int)
    requires bound >= 0 && forall i :: 0 <= i < |xs| ==> 0 <= xs[i] <= bound
    requires forall i, j :: 0 <= i < |xs| && 0 <= j < |xs| && xs[i] != 0 && xs[j] != 0 ==> i == j
    ensures Sum(xs) <= bound
  {
    if xs != [] {
      if xs[0] == 0 {
        SumOneNonZero(xs[1..], bound);
      } else {
        assert forall i :: 0 <= i < |xs| - 1 ==> xs[1..][i] == xs[i + 1];
        SumZero(xs[1..]);
      }
    }
  }

  /** One request for more than all the tokens takes them all and waits for ever. */
  lemma LargeRequestDeadlocks(tokens: nat, wants: seq<nat>, i: nat)
    requires i < |wants| && wants[i] > tokens
    ensures CanDeadlock(tokens, wants)
  {
    var s := Initial(tokens, wants);
    var s1 := Apply(s, Begin(i));
    WholeStep(s, Begin(i));
    if tokens == 0 {
      assert Deadlocked(s1) by { assert s1.clients[i].phase.Reading?; }
    } else {
      var s2 := Apply(s1, Read(i, tokens));
      WholeStep(s1, Read(i, tokens));
      WholeRunAppend(s, [Begin(i)], [Read(i, tokens)]);
      assert Deadlocked(s2) by { assert s2.clients[i].phase.Reading?; }
    }
  }

  /** Requests of one size deadlock if and only if one of them asks for more than there is:
      no number of clients and no slack matters. */
  lemma EqualRequestsDeadlock(tokens: nat, wants: seq<nat>, w: nat)
    requires w > 0 && w in wants && forall i :: 0 <= i < |wants| ==> wants[i] in {0, w}
    ensures CanDeadlock(tokens, wants) <==> w > tokens
  {
    if w > tokens {
      var i :| 0 <= i < |wants| && wants[i] == w;
      LargeRequestDeadlocks(tokens, wants, i);
    }
    if CanDeadlock(tokens, wants) {
      var start := Initial(tokens, wants);
      var actions :| WholeRun(start, actions).Some? && Deadlocked(WholeRun(start, actions).value);
      InitialInv(tokens, wants);
      WholeRunKeepsRemainder(start, actions, tokens, wants, w);
      var s := WholeRun(start, actions).value;
      hide WholeRun;
      OnlyRemainderHeld(s, tokens, wants, w);
    }
  }

  lemma OnlyRemainderHeld(s: State, tokens: nat, wants: seq<nat>, w: nat)
    requires 0 < w && Inv(s, tokens, wants) && s.lost == 0 && OneRemainder(s, w, Loose(tokens, w)) && Deadlocked(s)
    ensures tokens < w
  {
    forall i | 0 <= i < |s.clients|
      ensures 0 <= s.clients[i].has <= Loose(tokens, w) && (s.clients[i].has != 0 ==> Partial(s.clients[i]))
    {
      assert ClientOk(s.clients[i]);
    }
    SumOneNonZero(Holdings(s.clients), Loose(tokens, w));
  }

  /** Two requests for both of two tokens: the slack is there, the deadlock is not. */
  lemma SlackIsNotEnough()
    ensures Slack([2, 2]) >= 2 && !CanDeadlock(2, [2, 2])
  {
    SlackStep([2, 2], 0);
    SlackStep([2, 2], 1);
    assert [2, 2][0..] == [2, 2];
    assert 2 in [2, 2];
    EqualRequestsDeadlock(2, [2, 2], 2);
  }

  // ---- Enough requests for one token ----------------------------------------------

  function OneFlags(wants: seq<nat>): (fs: seq<int>)
    ensures |fs| == |wants| && forall i :: 0 <= i < |fs| ==> fs[i] == if wants[i] == 1 then 1 else 0
  {
    seq(|wants|, i requires 0 <= i < |wants| => if wants[i] == 1 then 1 else 0)
  }

  /** The number of requests for a single token. */
  function Ones(wants: seq<nat>): int {
    Sum(OneFlags(wants))
  }

  /** Only clients that want one token hold any. */
  ghost predicate OnesRunning(s: State) {
    forall i :: 0 <= i < |s.clients| ==>
      s.clients[i].phase.Idle? || (s.clients[i].phase.Running? && s.clients[i].want == 1)
  }

  /** One-token clients start, one after the other, until the pipe is empty. */
  lemma {:induction false} Drain(s: State, tokens: nat, wants: seq<nat>) returns (more: seq<Action>)
    requires Inv(s, tokens, wants) && s.lost == 0 && OnesRunning(s) && Ones(wants) >= tokens
    ensures WholeRun(s, more).Some?
    ensures var s' := WholeRun(s, more).value; Inv(s', tokens, wants) && s'.lost == 0 && OnesRunning(s') && s'.pipe == 0
    decreases s.pipe
  {
    if s.pipe == 0 {
      more := [];
    } else {
      if forall i :: 0 <= i < |wants| && wants[i] == 1 ==> !s.clients[i].phase.Idle? {
        SumMonotone(OneFlags(wants), Holdings(s.clients));
      }
      var i :| 0 <= i < |wants| && wants[i] == 1 && s.clients[i].phase.Idle?;
      var s1 := Apply(s, Begin(i));
      var s2 := Apply(s1, Read(i, 1));
      ApplyKeepsInv(s, Begin(i), tokens, wants);
      ApplyKeepsInv(s1, Read(i, 1), tokens, wants);
      var rest := Drain(s2, tokens, wants);
      WholeStep(s, Begin(i));
      WholeStep(s1, Read(i, 1));
      WholeRunAppend(s, [Begin(i)], [Read(i, 1)]);
      WholeRunAppend(s, [Begin(i)] + [Read(i, 1)], rest);
      more := [Begin(i)] + [Read(i, 1)] + rest;
    }
  }

  /** The pipe is empty, one-token clients run, and the others wait or have not begun. */
  ghost predicate Absorbing(s: State) {
    && s.pipe == 0 && s.lost == 0
    && forall i :: 0 <= i < |s.clients| ==>
         var c := s.clients[i];
         c.phase.Idle? || c.phase.Reading? || (c.want == 1 && (c.phase.Running? || c.phase.Finished?))
  }

  /** While a one-token client runs, some client has slack left to take its token. */
  lemma SlackIsLeft(s: State, tokens: nat, wants: seq<nat>, i: nat) returns (j: nat)
    requires Inv(s, tokens, wants) && Absorbing(s) && Slack(wants) >= tokens
    requires i < |wants| && s.clients[i].phase.Running?
    ensures j < |wants| && s.clients[j].has + 1 < wants[j]
  {
    if forall k :: 0 <= k < |wants| ==> Slacks(wants)[k] <= s.clients[k].has {
      var fewer := Holdings(s.clients)[i := 0];
      SumUpdate(Holdings(s.clients), i, 0);
      SumMonotone(Slacks(wants), fewer);
    }
    var k :| 0 <= k < |wants| && Slacks(wants)[k] > s.clients[k].has;
    j := k;
  }

  /** One after the other the running clients return their token, and a client with slack
      left takes it. */
  lemma {:induction false} Absorb(s: State, tokens: nat, wants: seq<nat>) returns (more: seq<Action>)
    requires Inv(s, tokens, wants) && Absorbing(s) && Slack(wants) >= tokens
    ensures WholeRun(s, more).Some?
    ensures var s' := WholeRun(s, more).value;
            && Inv(s', tokens, wants) && Absorbing(s')
            && forall i :: 0 <= i < |s'.clients| ==> !s'.clients[i].phase.Running?
    decreases TotalWork(s)
  {
    WorkNonNegative(s, tokens, wants);
    if i :| 0 <= i < |wants| && s.clients[i].phase.Running? {
      var j := SlackIsLeft(s, tokens, wants, i);
      var ready, s1 := BeginIfIdle(s, tokens, wants, j);
      var passed, s3 := PassToken(s1, tokens, wants, i, j);
      WorkNonNegative(s3, tokens, wants);
      var rest := Absorb(s3, tokens, wants);
      WholeRunAppend(s, ready, passed);
      WholeRunAppend(s, ready + passed, rest);
      more := ready + passed + rest;
    } else {
      more := [];
    }
  }

  lemma BeginIfIdle(s: State, tokens: nat, wants: seq<nat>, j: nat) returns (more: seq<Action>, next: State)
    requires Inv(s, tokens, wants) && Absorbing(s) && j < |wants| && s.clients[j].has + 1 < wants[j]
    ensures WholeRun(s, more) == Some(next) && Inv(next, tokens, wants) && Absorbing(next) && TotalWork(next) <= TotalWork(s)
    ensures next.clients[j].phase.Reading? && next.clients[j].has == s.clients[j].has
    ensures forall i :: 0 <= i < |wants| && i != j ==> next.clients[i] == s.clients[i]
  {
    if s.clients[j].phase.Idle? {
      WholeStep(s, Begin(j));
      ApplyKeepsInv(s, Begin(j), tokens, wants);
      ApplyReducesWork(s, Begin(j), tokens, wants);
      more, next := [Begin(j)], Apply(s, Begin(j));
    } else {
      more, next := [], s;
    }
  }

  lemma PassToken(s: State, tokens: nat, wants: seq<nat>, i: nat, j: nat) returns (more: seq<Action>, next: State)
    requires Inv(s, tokens, wants) && Absorbing(s) && i < |wants| && j < |wants|
    requires s.clients[i].phase.Running? && s.clients[j].phase.Reading? && s.clients[j].has + 1 < wants[j]
    ensures WholeRun(s, more) == Some(next) && Inv(next, tokens, wants) && Absorbing(next) && TotalWork(next) < TotalWork(s)
  {
    assert ClientOk(s.clients[i]);
    var s1 := Apply(s, Drop(i));
    var s2 := Apply(s1, Write(i, 1));
    next := Apply(s2, Read(j, 1));
    ApplyKeepsInv(s, Drop(i), tokens, wants);
    ApplyKeepsInv(s1, Write(i, 1), tokens, wants);
    ApplyKeepsInv(s2, Read(j, 1), tokens, wants);
    ApplyReducesWork(s, Drop(i), tokens, wants);
    ApplyReducesWork(s1, Write(i, 1), tokens, wants);
    ApplyReducesWork(s2, Read(j, 1), tokens, wants);
    WholeStep(s, Drop(i));
    WholeStep(s1, Write(i, 1));
    WholeStep(s2, Read(j, 1));
    WholeRunAppend(s, [Drop(i)], [Write(i, 1)]);
    WholeRunAppend(s, [Drop(i)] + [Write(i, 1)], [Read(j, 1)]);
    more := [Drop(i)] + [Write(i, 1)] + [Read(j, 1)];
  }

  /** With as many one-token requests as there are tokens, a deadlock is possible under whole
      reads exactly when it is under arbitrary ones: when the slack reaches the tokens. */
  lemma OnesMakeSlackExact(tokens: nat, wants: seq<nat>)
    requires Ones(wants) >= tokens && exists i :: 0 <= i < |wants| && wants[i] > 0
    ensures CanDeadlock(tokens, wants) <==> Slack(wants) >= tokens
  {
    if CanDeadlock(tokens, wants) {
      WholeDeadlockNeedsSlack(tokens, wants);
    }
    if Slack(wants) >= tokens {
      if i :| 0 <= i < |wants| && wants[i] > tokens {
        LargeRequestDeadlocks(tokens, wants, i);
      } else {
        var start := Initial(tokens, wants);
        InitialInv(tokens, wants);
        var first := Drain(start, tokens, wants);
        var drained := WholeRun(start, first).value;
        var second := Absorb(drained, tokens, wants);
        WholeRunAppend(start, first, second);
        var s := WholeRun(start, first + second).value;
        SomebodyWaits(s, tokens, wants);
      }
    }
  }

  /** When nobody runs any more, the tokens are in the hands of waiting clients. */
  lemma SomebodyWaits(s: State, tokens: nat, wants: seq<nat>)
    requires Inv(s, tokens, wants) && Absorbing(s) && tokens > 0
    requires forall i :: 0 <= i < |s.clients| ==> !s.clients[i].phase.Running?
    ensures Deadlocked(s)
  {
    if forall i :: 0 <= i < |s.clients| ==> !s.clients[i].phase.Reading? {
      SumZero(Holdings(s.clients));
    }
  }
}
