/** A name for a new VM that no existing VM has. */
module VmNames {
  import opened Text

  /** The last path component of an image reference, without its tag. */
  function ImageName(image: string): string {
    var parts := Split(image, '/');
    Split(parts[|parts| - 1], ':')[0]
  }

  /** The directories, the name and the tag of a reference come apart: the name is what stands
      between the last slash and the first colon after it. */
  lemma NameOfImage(directories: string, name: string, tag: string)
    requires NoChar(name, '/') && NoChar(name, ':') && NoChar(tag, '/')
    ensures ImageName(name) == name && ImageName(name + ":" + tag) == name
    ensures ImageName(directories + "/" + name) == name
    ensures ImageName(directories + "/" + name + ":" + tag) == name
  {
    var tagged := name + ":" + tag;
    assert NoChar(tagged, '/');
    SplitWhole(name, '/');
    SplitWhole(tagged, '/');
    SplitWhole(name, ':');
    SplitHead(name, ':', tag);
    LastOfSplit(directories, name);
    LastOfSplit(directories, tagged);
    assert directories + "/" + name + ":" + tag == directories + "/" + tagged;
    hide Split;
  }

  lemma {:induction false} LastOfSplit(head: string, tail: string)
    requires NoChar(tail, '/')
    ensures var parts := Split(head + "/" + tail, '/'); parts[|parts| - 1] == tail
  {
    var s := head + "/" + tail;
    SplitWhole(tail, '/');
    if head == "" {
      assert s[1..] == tail;
    } else {
      assert s[1..] == head[1..] + "/" + tail;
      LastOfSplit(head[1..], tail);
      SplitCount(head[1..], tail);
    }
  }

  lemma {:induction false} SplitCount(head: string, tail: string)
    ensures |Split(head + "/" + tail, '/')| >= 2
  {
    var s := head + "/" + tail;
    if head == "" {
      assert s[1..] == tail;
    } else {
      assert s[1..] == head[1..] + "/" + tail;
      SplitCount(head[1..], tail);
    }
  }

  /** Characters that a name may not have become hyphens. Which characters are letters or
      digits is for the caller to say. */
  function Sanitize(name: string, isAlphanumeric: char -> bool): (r: string)
    ensures |r| == |name|
    ensures forall i :: 0 <= i < |r| ==> isAlphanumeric(r[i]) || r[i] == '-' || r[i] == '_'
    ensures forall i :: 0 <= i < |r| && (isAlphanumeric(name[i]) || name[i] == '-' || name[i] == '_') ==> r[i] == name[i]
    ensures forall i :: 0 <= i < |r| && r[i] != name[i] ==> r[i] == '-'
  {
    seq(|name|, i requires 0 <= i < |name| =>
        if isAlphanumeric(name[i]) || name[i] == '-' || name[i] == '_' then name[i] else '-')
  }

  /** The candidates, in the order they are tried, from 1. */
  function Candidate(base: string, counter: nat): string {
    if counter <= 1 then base else base + "-" + Decimal(counter)
  }

  lemma CandidatesDiffer(base: string, i: nat, j: nat)
    requires 1 <= i < j
    ensures Candidate(base, i) != Candidate(base, j)
  {
    if i > 1 && Candidate(base, i) == Candidate(base, j) {
      assert Candidate(base, i)[|base| + 1..] == Decimal(i);
      assert Candidate(base, j)[|base| + 1..] == Decimal(j);
      DecimalInjective(i, j);
    } else if i == 1 {
      assert |Candidate(base, j)| > |base|;
    }
  }

  function Elements(names: seq<string>): (s: set<string>)
    ensures |s| <= |names| && forall n :: n in s <==> n in names
  {
    if names == [] then {} else Elements(names[..|names| - 1]) + {names[|names| - 1]}
  }

  function FirstCandidates(base: string, n: nat): (s: set<string>)
    ensures forall c :: c in s <==> exists i :: 1 <= i <= n && c == Candidate(base, i)
  {
    if n == 0 then {} else FirstCandidates(base, n - 1) + {Candidate(base, n)}
  }

  lemma {:induction false} CandidateCount(base: string, n: nat)
    ensures |FirstCandidates(base, n)| == n
  {
    if n > 0 {
      CandidateCount(base, n - 1);
      forall i | 1 <= i <= n - 1
        ensures Candidate(base, i) != Candidate(base, n)
      {
        CandidatesDiffer(base, i, n);
      }
    }
  }

  /** Pigeonhole: the first candidates cannot all be taken when there are more of them than
      existing names. */
  lemma TakenCandidates(base: string, existing: seq<string>, n: nat)
    requires forall i :: 1 <= i <= n ==> Candidate(base, i) in existing
    ensures n <= |existing|
  {
    CandidateCount(base, n);
    Cardinality(FirstCandidates(base, n), Elements(existing));
  }

  lemma {:induction false} Cardinality(a: set<string>, b: set<string>)
    requires a <= b
    ensures |a| <= |b|
  {
    if a != {} {
      var x :| x in a;
      Cardinality(a - {x}, b - {x});
    }
  }

  /** The search ends after at most one candidate more than there are names, with an unused
      name of the least suffix. */
  method GenerateUniqueVmName(image: string, existing: seq<string>, isAlphanumeric: char -> bool)
    returns (candidate: string)
    ensures candidate !in existing
    ensures exists counter ::
              && 1 <= counter <= |existing| + 1
              && candidate == Candidate(Sanitize(ImageName(image), isAlphanumeric), counter)
              && forall i :: 1 <= i < counter ==> Candidate(Sanitize(ImageName(image), isAlphanumeric), i) in existing
  {
    var sanitized := Sanitize(ImageName(image), isAlphanumeric);
    candidate := sanitized;
    var counter := 1;
    while candidate in existing
      invariant 1 <= counter <= |existing| + 1
      invariant candidate == Candidate(sanitized, counter)
      invariant forall i :: 1 <= i < counter ==> Candidate(sanitized, i) in existing
      decreases |existing| + 1 - counter
    {
      TakenCandidates(sanitized, existing, counter);
      counter := counter + 1;
      candidate := sanitized + "-" + Decimal(counter);
    }
  }
}
