/** Threads of control of a concurrent model, one program counter each, and weighted counts
    of them.  Agents are never removed: a new one is appended. */
module Agents {

  function Total<P>(weight: P -> nat, agents: seq<P>): nat
  {
    if agents == [] then 0 else weight(agents[0]) + Total(weight, agents[1..])
  }

  lemma {:induction false} TotalOfConcat<P>(weight: P -> nat, a: seq<P>, b: seq<P>)
    ensures Total(weight, a + b) == Total(weight, a) + Total(weight, b)
  {
    if a == [] {
      assert a + b == b;
    } else {
      assert (a + b)[1..] == a[1..] + b;
      TotalOfConcat(weight, a[1..], b);
    }
  }

  lemma TotalOfSplit<P>(weight: P -> nat, agents: seq<P>, i: nat)
    requires i < |agents|
    ensures Total(weight, agents) == Total(weight, agents[..i]) + weight(agents[i]) + Total(weight, agents[i + 1..])
  {
    assert agents == agents[..i] + ([agents[i]] + agents[i + 1..]);
    TotalOfConcat(weight, agents[..i], [agents[i]] + agents[i + 1..]);
  }

  /** Moving one agent and starting others changes a total by their weights alone. */
  lemma TotalAfterMove<P>(weight: P -> nat, agents: seq<P>, i: nat, p: P, spawned: seq<P>)
    requires i < |agents|
    ensures Total(weight, agents[i := p] + spawned) + weight(agents[i])
         == Total(weight, agents) + weight(p) + Total(weight, spawned)
  {
    TotalOfConcat(weight, agents[i := p], spawned);
    TotalOfSplit(weight, agents, i);
    TotalOfSplit(weight, agents[i := p], i);
    assert agents[i := p][..i] == agents[..i] && agents[i := p][i + 1..] == agents[i + 1..];
  }

  lemma TotalCoversOne<P>(weight: P -> nat, agents: seq<P>, i: nat)
    requires i < |agents|
    ensures weight(agents[i]) <= Total(weight, agents)
  {
    TotalOfSplit(weight, agents, i);
  }

  lemma TotalCoversTwo<P>(weight: P -> nat, agents: seq<P>, i: nat, j: nat)
    requires i < j < |agents|
    ensures weight(agents[i]) + weight(agents[j]) <= Total(weight, agents)
  {
    TotalOfSplit(weight, agents, j);
    TotalCoversOne(weight, agents[..j], i);
  }

  lemma {:induction false} TotalZero<P>(weight: P -> nat, agents: seq<P>)
    ensures Total(weight, agents) == 0 <==> forall i :: 0 <= i < |agents| ==> weight(agents[i]) == 0
  {
    if agents != [] {
      TotalZero(weight, agents[1..]);
      assert forall i :: 1 <= i < |agents| ==> agents[i] == agents[1..][i - 1];
      assert forall i :: 0 <= i < |agents[1..]| ==> agents[1..][i] == agents[i + 1];
    }
  }

  /** If the smaller weight adds up to something, so does the larger. */
  lemma {:induction false} TotalMonotone<P>(small: P -> nat, large: P -> nat, agents: seq<P>)
    requires forall i :: 0 <= i < |agents| ==> small(agents[i]) <= large(agents[i])
    ensures Total(small, agents) <= Total(large, agents)
  {
    if agents != [] {
      forall i | 0 <= i < |agents[1..]| ensures small(agents[1..][i]) <= large(agents[1..][i]) {
        assert agents[1..][i] == agents[i + 1];
      }
      TotalMonotone(small, large, agents[1..]);
    }
  }
}
