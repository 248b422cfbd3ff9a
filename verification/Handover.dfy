/** What a scale-down hands to the task queue. */
module Handover {
  import opened Options
  import opened Containers
  import opened ScaleDown
  import Scaling

  function ContainersOf(cs: seq<Candidate>, of: Candidate -> Container): (r: seq<Container>)
    ensures |r| == |cs| && forall i | 0 <= i < |cs| :: r[i] == of(cs[i])
  {
    seq(|cs|, i requires 0 <= i < |cs| => of(cs[i]))
  }

  /** AddTasks is given the selected list, or nil. */
  function ItemOf(r: Selection, of: Candidate -> Container, taskType: int): Scaling.Item
    requires r.Selected?
  {
    Scaling.Plain(if r.isNil then None else Some(ContainersOf(r.containers, of)), taskType)
  }

  /** The ring after the item has come first. */
  function RingAfter(r: Selection, of: Candidate -> Container, taskType: int): Scaling.Phase
    requires r.Selected?
  {
    Scaling.PhaseAfter(Scaling.NoRing, Scaling.CallsOf(ItemOf(r, of, taskType)))
  }

  lemma FirstCall(c: Scaling.Call)
    ensures Scaling.PhaseAfter(Scaling.NoRing, [c]) == Scaling.Next(Scaling.NoRing, c)
  {
    assert [c][..0] == [];
    assert Scaling.PhaseAfter(Scaling.NoRing, []) == Scaling.NoRing;
  }

  /** The form with apps hands on nil instead of an empty list, so that the items that follow lose nothing. */
  lemma ServiceNeverStarves(r: Selection, of: Candidate -> Container, taskType: int)
    requires r.Selected? && (r.isNil <==> r.containers == [])
    ensures !RingAfter(r, of, taskType).Lone?
  {
    FirstCall(Scaling.CallsOf(ItemOf(r, of, taskType))[0]);
  }

  /** The form without apps leaves a ring that holds only its head, into which the lists of the items that follow are
      lost, exactly when it considers containers and they are no more than they must be. */
  lemma FormStarvesIff(r: Selection, l: seq<Candidate>, n: nat, m: nat, of: Candidate -> Container, taskType: int)
    requires n >= 1 && Uniform(l, m) && (l != [] ==> m <= |l|)
    requires r.Selected? && Decided(r, l, n)
    ensures RingAfter(r, of, taskType).Lone? <==> l != [] && |l| == m
  {
    FirstCall(Scaling.CallsOf(ItemOf(r, of, taskType))[0]);
    if l != [] {
      EmptyHandedOnIff(l, n, m);
    }
  }
}
