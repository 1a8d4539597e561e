/**
  Detecting remote deletes: local ids are looked up on the remote in batches, and the
  ones it no longer has are removed locally, unless some lookup failed.
 */
module RemoteDeletes {
  import opened Common

  type Id = Value

  function Batches(ids: seq<Id>, size: nat): seq<seq<Id>>
    requires size >= 1
  {
    if ids == [] then [] else if |ids| <= size then [ids] else [ids[..size]] + Batches(ids[size..], size)
  }

  ghost predicate InSome(bs: seq<seq<Id>>, id: Id) {
    exists b :: 0 <= b < |bs| && id in bs[b]
  }

  lemma InSomeCons(first: seq<Id>, rest: seq<seq<Id>>, id: Id)
    ensures InSome([first] + rest, id) <==> id in first || InSome(rest, id)
  {
    var bs := [first] + rest;
    assert bs[0] == first && forall b :: 0 <= b < |rest| ==> bs[b + 1] == rest[b];
  }

  /** Every local id is asked about, and nothing else. */
  lemma {:induction false} BatchesCover(ids: seq<Id>, size: nat, id: Id)
    requires size >= 1
    ensures id in ids <==> InSome(Batches(ids, size), id)
  {
    if ids == [] {
    } else if |ids| <= size {
      InSomeCons(ids, [], id);
      assert [ids] + [] == [ids];
    } else {
      BatchesCover(ids[size..], size, id);
      InSomeCons(ids[..size], Batches(ids[size..], size), id);
      assert ids == ids[..size] + ids[size..];
    }
  }

  /** No batch is empty or larger than the batch size. */
  lemma {:induction false} BatchesBounded(ids: seq<Id>, size: nat, b: nat)
    requires size >= 1 && b < |Batches(ids, size)|
    ensures 1 <= |Batches(ids, size)[b]| <= size
  {
    if |ids| > size && b > 0 { BatchesBounded(ids[size..], size, b - 1); }
  }

  /** No answer about batch `b` found the id. */
  ghost predicate NeverFound(bs: seq<seq<Id>>, answers: nat -> Option<set<Id>>, n: nat, id: Id)
    requires n <= |bs|
  {
    forall b :: 0 <= b < n && id in bs[b] ==> answers(b).Some? && id !in answers(b).value
  }

  /** What detection removes, given the answers to its lookups. */
  ghost predicate Detected(localIds: seq<Id>, size: nat, answers: nat -> Option<set<Id>>, text: Id -> string,
                           marked: set<string>, deleted: set<Id>)
    requires size >= 1
  {
    var bs := Batches(localIds, size);
    if exists b :: 0 <= b < |bs| && answers(b).None? then deleted == {}
    else forall id :: id in deleted <==> id in localIds && text(id) !in marked && NeverFound(bs, answers, |bs|, id)
  }

  /**
    A failed lookup removes nothing; otherwise exactly the untombstoned local ids that
    no lookup found are removed, so nothing the remote reported present ever is.
   */
  method DetectRemoteDeletes(localIds: seq<Id>, size: nat, answers: nat -> Option<set<Id>>, text: Id -> string,
                             marked: set<string>)
    returns (deleted: set<Id>)
    requires size >= 1
    ensures Detected(localIds, size, answers, text, marked, deleted)
  {
    var bs := Batches(localIds, size);
    var remoteIds: set<Id> := {};
    for b := 0 to |bs|
      invariant forall c :: 0 <= c < b ==> answers(c).Some?
      invariant forall id :: id in remoteIds <==> exists c :: 0 <= c < b && id in bs[c] && id in answers(c).value
    {
      if answers(b).None? { return {}; }
      remoteIds := remoteIds + set id | id in bs[b] && id in answers(b).value;
    }
    deleted := set id | id in localIds && id !in remoteIds && text(id) !in marked;
  }
}
