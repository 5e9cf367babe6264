/** The job list: the snapshots of all jobs, newest first, sorted in place. */
module CephJobList {
  import opened CephJob

  datatype Snapshot = Snapshot(id: string, startedAt: int, state: JobState, steps: seq<Step>)

  /** Newest first on `s[..hi]`. */
  ghost predicate Descending(s: seq<Snapshot>, hi: nat)
    requires hi <= |s|
  {
    forall i, j :: 0 <= i < j < hi ==> s[i].startedAt >= s[j].startedAt
  }

  /** `s[..hi]` is newest first but for the element at `k`, which may still have to move left. */
  ghost predicate DescendingBut(s: seq<Snapshot>, hi: nat, k: nat)
    requires hi <= |s|
  {
    && (forall i, j :: 0 <= i < j < hi && i != k && j != k ==> s[i].startedAt >= s[j].startedAt)
    && (forall j :: k < j < hi ==> s[k].startedAt >= s[j].startedAt)
  }

  lemma SwapKeepsElements(s: seq<Snapshot>, k: nat)
    requires 0 < k < |s|
    ensures multiset(s[k - 1 := s[k]][k := s[k - 1]]) == multiset(s)
  {
    var t := s[k - 1 := s[k]][k := s[k - 1]];
    assert s == s[..k - 1] + [s[k - 1]] + [s[k]] + s[k + 1..];
    assert t == s[..k - 1] + [s[k]] + [s[k - 1]] + s[k + 1..];
  }

  lemma SwapMovesLeft(s: seq<Snapshot>, hi: nat, k: nat)
    requires 0 < k < hi <= |s| && DescendingBut(s, hi, k) && s[k - 1].startedAt < s[k].startedAt
    ensures DescendingBut(s[k - 1 := s[k]][k := s[k - 1]], hi, k - 1)
  {
    var t := s[k - 1 := s[k]][k := s[k - 1]];
    forall i, j | 0 <= i < j < hi && i != k - 1 && j != k - 1 ensures t[i].startedAt >= t[j].startedAt {
      var i' := if i == k then k - 1 else i;
      var j' := if j == k then k - 1 else j;
      assert t[i] == s[i'] && t[j] == s[j'];
    }
  }

  lemma InPlace(s: seq<Snapshot>, hi: nat, k: nat)
    requires k < hi <= |s| && DescendingBut(s, hi, k) && (k > 0 ==> s[k - 1].startedAt >= s[k].startedAt)
    ensures Descending(s, hi)
  {
    forall i, j | 0 <= i < j < hi ensures s[i].startedAt >= s[j].startedAt {
      if j == k && i < k - 1 {
        assert s[i].startedAt >= s[k - 1].startedAt;
      }
    }
  }

  /** Moves element `i` left to its place among the sorted elements before it. */
  method SiftLeft(out: array<Snapshot>, i: nat)
    requires i < out.Length && Descending(out[..], i)
    modifies out
    ensures Descending(out[..], i + 1) && multiset(out[..]) == multiset(old(out[..]))
  {
    var j := i;
    while j > 0 && out[j - 1].startedAt < out[j].startedAt
      invariant 0 <= j <= i && DescendingBut(out[..], i + 1, j)
      invariant multiset(out[..]) == multiset(old(out[..]))
    {
      SwapKeepsElements(out[..], j);
      SwapMovesLeft(out[..], i + 1, j);
      ghost var swapped := out[..][j - 1 := out[j]][j := out[j - 1]];
      out[j - 1], out[j] := out[j], out[j - 1];
      assert out[..] == swapped;
      j := j - 1;
    }
    InPlace(out[..], i + 1, j);
  }

  /** The snapshots of all jobs, each once, newest first. */
  method ListJobs(jobs: seq<Snapshot>) returns (out: array<Snapshot>)
    ensures Descending(out[..], |out[..]|) && multiset(out[..]) == multiset(jobs)
  {
    out := new Snapshot[|jobs|](i requires 0 <= i < |jobs| => jobs[i]);
    assert out[..] == jobs;
    var i := 1;
    while i < out.Length
      invariant 1 <= i && Descending(out[..], if i <= out.Length then i else out.Length)
      invariant multiset(out[..]) == multiset(jobs)
    {
      SiftLeft(out, i);
      i := i + 1;
    }
  }
}
