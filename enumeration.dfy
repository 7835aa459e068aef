/** Enumeration of the usable CPUs: main scans the inclusive range
    [begin_core, end_core] and keeps every id the affinity mask contains.
    The mask is the set of CPU ids sched_getaffinity reported; the system call
    itself is not part of this model. */
module Enumeration {
  import opened Options

  /** CPU_ISSET(k, &set) as glibc defines it: an id outside [0, CPU_SETSIZE)
      reads as not set, whatever the mask. */
  predicate IsSet(mask: set<int>, k: int): (b: bool)
    ensures b ==> k in mask
    ensures !(0 <= k < CpuSetSize) ==> !b
  {
    0 <= k < CpuSetSize && k in mask
  }

  /** The ids the scan of [beginCore, endCore] collects, in scan order. */
  function Cpus(mask: set<int>, beginCore: int, endCore: int): seq<int>
    decreases if endCore < beginCore then 0 else endCore - beginCore + 1
  {
    if endCore < beginCore then []
    else Cpus(mask, beginCore, endCore - 1) + (if IsSet(mask, endCore) then [endCore] else [])
  }

  ghost predicate StrictlyAscending(s: seq<int>)
  {
    forall a, b :: 0 <= a < b < |s| ==> s[a] < s[b]
  }

  /** The scan keeps exactly the ids of the range that are set in the mask. */
  lemma {:induction false} CpusMembers(mask: set<int>, beginCore: int, endCore: int)
    ensures forall k :: k in Cpus(mask, beginCore, endCore) <==> beginCore <= k <= endCore && IsSet(mask, k)
    decreases if endCore < beginCore then 0 else endCore - beginCore + 1
  {
    if beginCore <= endCore {
      CpusMembers(mask, beginCore, endCore - 1);
    }
  }

  /** The scan yields a strictly ascending list, so no id appears twice. */
  lemma {:induction false} CpusAscending(mask: set<int>, beginCore: int, endCore: int)
    ensures StrictlyAscending(Cpus(mask, beginCore, endCore))
    decreases if endCore < beginCore then 0 else endCore - beginCore + 1
  {
    if beginCore <= endCore {
      var init := Cpus(mask, beginCore, endCore - 1);
      CpusAscending(mask, beginCore, endCore - 1);
      CpusMembers(mask, beginCore, endCore - 1);
      assert forall a :: 0 <= a < |init| ==> init[a] in init;
    }
  }

  /** Two strictly ascending lists with the same elements are the same list:
      the membership and order properties determine the enumeration. */
  lemma {:induction false} AscendingUnique(s: seq<int>, t: seq<int>)
    requires StrictlyAscending(s) && StrictlyAscending(t)
    requires forall k :: k in s <==> k in t
    ensures s == t
    decreases |s|
  {
    assert s == [] <==> t == [] by {
      if s != [] { assert s[0] in s; }
      if t != [] { assert t[0] in t; }
    }
    if s != [] {
      // The first elements agree: each is below every other element of both lists.
      assert s[0] in t && t[0] in s;
      var i :| 0 <= i < |t| && t[i] == s[0];
      var j :| 0 <= j < |s| && s[j] == t[0];
      assert s[0] <= s[j] == t[0] <= t[i] == s[0];
      forall k
        ensures k in s[1..] <==> k in t[1..]
      {
        if k in s[1..] {
          var a :| 1 <= a < |s| && s[a] == k;
          assert k in t && k != t[0];
        }
        if k in t[1..] {
          var b :| 1 <= b < |t| && t[b] == k;
          assert k in s && k != s[0];
        }
      }
      AscendingUnique(s[1..], t[1..]);
    }
  }

  /** The scan loop: ids are appended as they are found. */
  method EnumerateCpus(mask: set<int>, beginCore: int, endCore: int) returns (cpus: seq<int>)
    ensures cpus == Cpus(mask, beginCore, endCore)
    ensures StrictlyAscending(cpus)
    ensures forall k :: k in cpus <==> beginCore <= k <= endCore && IsSet(mask, k)
    ensures endCore < beginCore ==> cpus == []
  {
    cpus := [];
    var i := beginCore;
    while i <= endCore
      invariant beginCore <= i
      invariant i <= endCore + 1 || i == beginCore
      invariant cpus == Cpus(mask, beginCore, i - 1)
    {
      if IsSet(mask, i) {
        cpus := cpus + [i];
      }
      i := i + 1;
    }
    if endCore < beginCore {
      assert Cpus(mask, beginCore, endCore) == [];
    }
    CpusMembers(mask, beginCore, endCore);
    CpusAscending(mask, beginCore, endCore);
  }

  /** A mask {2, 4, 7} scanned over [0, 10] gives [2, 4, 7]; scanned from 5
      it gives [7]. */
  lemma EnumerationExample()
    ensures Cpus({2, 4, 7}, 0, 10) == [2, 4, 7]
    ensures Cpus({2, 4, 7}, 5, 10) == [7]
  {
  }

  /** The default range ends at CPU_SETSIZE itself: that id is scanned but
      never listed, even if the mask were to hold it. */
  lemma EnumerationAtSetSize()
    ensures Cpus({1022, 1024}, 1021, 1024) == [1022]
  {
  }
}
