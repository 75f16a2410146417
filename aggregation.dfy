/**
  The third step of `TimecardService.save`: the flat effort list is folded into a map from
  project id to the set of its sub-project ids, merging into the existing set when a project
  id repeats, and every map entry becomes one verification request.
 */
module Aggregation {
  import opened Domain

  /**
    One step of the group-by: a project id seen for the first time gets the given set, a
    repeated one has the given set unioned into the set it already has.
   */
  function Merge(m: map<string, set<string>>, projectId: string, subProjectIds: set<string>)
    : map<string, set<string>>
  {
    if projectId in m then m[projectId := m[projectId] + subProjectIds]
    else m[projectId := subProjectIds]
  }

  /** A merge adds its key, never replaces what a repeated key already holds, and touches no other key. */
  lemma MergeUnions(m: map<string, set<string>>, projectId: string, subProjectIds: set<string>)
    ensures Merge(m, projectId, subProjectIds).Keys == m.Keys + {projectId}
    ensures Merge(m, projectId, subProjectIds)[projectId]
         == (if projectId in m then m[projectId] else {}) + subProjectIds
    ensures forall p :: p in m && p != projectId ==> Merge(m, projectId, subProjectIds)[p] == m[p]
  {
  }

  /** The group-by over the flat list, folded from the first effort to the last. */
  function Grouped(efforts: seq<Effort>): map<string, set<string>>
  {
    if efforts == [] then map[]
    else
      var e := efforts[|efforts| - 1];
      Merge(Grouped(efforts[..|efforts| - 1]), e.projectId, {e.subProjectId})
  }

  /** Some effort of the list is booked on project p. */
  predicate HasProject(efforts: seq<Effort>, p: string) {
    exists n :: 0 <= n < |efforts| && efforts[n].projectId == p
  }

  /** Some effort of the list is booked on sub-project sp of project p. */
  predicate HasPair(efforts: seq<Effort>, p: string, sp: string) {
    exists n :: 0 <= n < |efforts| && efforts[n].projectId == p && efforts[n].subProjectId == sp
  }

  /**
    The group-by is exact: its keys are the project ids of the efforts, and the set under a
    project id holds every sub-project id booked on that project and nothing else. Repeated
    project ids merge, so no pairing is lost.
   */
  lemma {:induction false} GroupedExact(efforts: seq<Effort>)
    ensures forall p :: p in Grouped(efforts) <==> HasProject(efforts, p)
    ensures forall p, sp :: (p in Grouped(efforts) && sp in Grouped(efforts)[p]) <==> HasPair(efforts, p, sp)
  {
    if efforts != [] {
      var init := efforts[..|efforts| - 1];
      var e := efforts[|efforts| - 1];
      GroupedExact(init);
      MergeUnions(Grouped(init), e.projectId, {e.subProjectId});
      forall p ensures HasProject(efforts, p) <==> HasProject(init, p) || p == e.projectId {
        if HasProject(efforts, p) {
          var n :| 0 <= n < |efforts| && efforts[n].projectId == p;
          if n < |init| { assert init[n] == efforts[n]; }
        }
        if HasProject(init, p) {
          var n :| 0 <= n < |init| && init[n].projectId == p;
          assert efforts[n] == init[n];
        }
        if p == e.projectId {
          assert efforts[|efforts| - 1].projectId == p;
        }
      }
      forall p, sp
        ensures HasPair(efforts, p, sp) <==> HasPair(init, p, sp) || (p == e.projectId && sp == e.subProjectId)
      {
        if HasPair(efforts, p, sp) {
          var n :| 0 <= n < |efforts| && efforts[n].projectId == p && efforts[n].subProjectId == sp;
          if n < |init| { assert init[n] == efforts[n]; }
        }
        if HasPair(init, p, sp) {
          var n :| 0 <= n < |init| && init[n].projectId == p && init[n].subProjectId == sp;
          assert efforts[n] == init[n];
        }
        if p == e.projectId && sp == e.subProjectId {
          assert efforts[|efforts| - 1] == e;
        }
      }
    }
  }

  /**
    The map update loop of the group-by: each effort's project id is merged with the
    singleton set of its sub-project id.
   */
  method GroupByProject(efforts: seq<Effort>) returns (m: map<string, set<string>>)
    ensures m == Grouped(efforts)
  {
    m := map[];
    var i := 0;
    while i < |efforts|
      invariant 0 <= i <= |efforts|
      invariant m == Grouped(efforts[..i])
    {
      var effort := efforts[i];
      assert efforts[..i + 1][..i] == efforts[..i];
      if effort.projectId in m {
        m := m[effort.projectId := m[effort.projectId] + {effort.subProjectId}];
      } else {
        m := m[effort.projectId := {effort.subProjectId}];
      }
      i := i + 1;
    }
    assert efforts[..i] == efforts;
  }

  /**
    rs holds one request per key of m, no project id twice, and each request carries the
    whole set m holds for its project id. The order of the requests is not fixed.
   */
  predicate RequestsFor(rs: seq<VerifyProjectExist>, m: map<string, set<string>>) {
    && (forall n :: 0 <= n < |rs| ==> rs[n].projectId in m && rs[n].subProjectIds == m[rs[n].projectId])
    && (forall p :: p in m ==> exists n :: 0 <= n < |rs| && rs[n].projectId == p)
    && (forall a, b :: 0 <= a < b < |rs| ==> rs[a].projectId != rs[b].projectId)
  }

  /** Turns every map entry into a request, taking the keys in no particular order. */
  method ToRequests(m: map<string, set<string>>) returns (rs: seq<VerifyProjectExist>)
    ensures RequestsFor(rs, m)
    ensures |rs| == |m|
  {
    rs := [];
    var remaining := m.Keys;
    while remaining != {}
      invariant remaining <= m.Keys
      invariant |rs| + |remaining| == |m|
      invariant forall n :: 0 <= n < |rs| ==>
        rs[n].projectId in m && rs[n].projectId !in remaining && rs[n].subProjectIds == m[rs[n].projectId]
      invariant forall p :: p in m && p !in remaining ==> exists n :: 0 <= n < |rs| && rs[n].projectId == p
      invariant forall a, b :: 0 <= a < b < |rs| ==> rs[a].projectId != rs[b].projectId
      decreases remaining
    {
      var p :| p in remaining;
      ghost var before := rs;
      rs := rs + [VerifyProjectExist(p, m[p])];
      remaining := remaining - {p};
      forall q | q in m && q !in remaining
        ensures exists n :: 0 <= n < |rs| && rs[n].projectId == q
      {
        if q == p {
          assert rs[|rs| - 1].projectId == q;
        } else {
          var n :| 0 <= n < |before| && before[n].projectId == q;
          assert rs[n] == before[n];
        }
      }
    }
  }

  /** The pair of effort n is carried by some request built from the group-by. */
  lemma PairCovered(efforts: seq<Effort>, rs: seq<VerifyProjectExist>, n: nat)
    requires RequestsFor(rs, Grouped(efforts)) && n < |efforts|
    ensures exists r :: 0 <= r < |rs| && rs[r].projectId == efforts[n].projectId
                       && efforts[n].subProjectId in rs[r].subProjectIds
  {
    GroupedExact(efforts);
    var p, sp := efforts[n].projectId, efforts[n].subProjectId;
    assert HasPair(efforts, p, sp);
    assert p in Grouped(efforts) && sp in Grouped(efforts)[p];
  }

  /**
    The requests built from the group-by of a flat list cover every (project, sub-project)
    pair of the list, and every pair they carry comes from the list.
   */
  lemma RequestsCoverEfforts(efforts: seq<Effort>, rs: seq<VerifyProjectExist>)
    requires RequestsFor(rs, Grouped(efforts))
    ensures forall n :: 0 <= n < |efforts| ==>
      exists r :: 0 <= r < |rs| && rs[r].projectId == efforts[n].projectId
                 && efforts[n].subProjectId in rs[r].subProjectIds
    ensures forall r, sp :: 0 <= r < |rs| && sp in rs[r].subProjectIds ==> HasPair(efforts, rs[r].projectId, sp)
  {
    GroupedExact(efforts);
    forall n | 0 <= n < |efforts| {
      PairCovered(efforts, rs, n);
    }
  }
}
