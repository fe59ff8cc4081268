/** Paged cleanup of internal/s3/client.go: list, check the metadata of each object, delete, move on by token. */
module Cleanup {
  import opened Basics
  import opened Strings
  import opened Store

  /** A delete may fail before or after it took effect. */
  datatype DeleteReply = Deleted | LostReply | Refused

  /**
   What the service answers. Within one cleanup a key is headed and deleted at most once, so the
   answers may be given by key; pages are numbered.
   */
  datatype Service = Service(
    listFails: nat -> bool,
    pageLimit: nat -> nat,
    headFails: string -> bool,
    deleteReply: string -> DeleteReply)

  datatype Target = Target(prefix: string, key: string, value: string)

  predicate Matches(t: Target, objects: Objects, k: string)
  {
    k in objects && HasPrefix(k, t.prefix) && t.key in objects[k].metadata && objects[k].metadata[t.key] == t.value
  }

  /** The objects a complete cleanup removes. */
  predicate Removed(t: Target, svc: Service, objects: Objects, k: string)
  {
    Matches(t, objects, k) && !svc.headFails(k) && svc.deleteReply(k) != Refused
  }

  /** The objects it counts. */
  predicate Counted(t: Target, svc: Service, objects: Objects, k: string)
  {
    Matches(t, objects, k) && !svc.headFails(k) && svc.deleteReply(k) == Deleted
  }

  function RemovedAmong(t: Target, svc: Service, objects: Objects, handled: set<string>): set<string>
  {
    set k | k in handled && Removed(t, svc, objects, k)
  }

  function CountedAmong(t: Target, svc: Service, objects: Objects, handled: set<string>): set<string>
  {
    set k | k in handled && Counted(t, svc, objects, k)
  }

  function KeySet(keys: seq<string>): set<string>
  {
    set k | k in keys
  }

  function UnderPrefix(objects: Objects, prefix: string): set<string>
  {
    set k | k in objects && HasPrefix(k, prefix)
  }

  /** Keys handled before a token: those under the prefix that are not beyond it. */
  function HandledBefore(objects: Objects, prefix: string, token: Option<string>): set<string>
  {
    UnderPrefix(objects, prefix) - Beyond(objects, prefix, token)
  }

  class Bucket {
    var objects: Objects

    constructor (objects: Objects)
      ensures this.objects == objects
    {
      this.objects := objects;
    }

    /** HeadObject, the metadata test and DeleteObject for one listed key. */
    method CleanOne(t: Target, svc: Service, k: string) returns (counted: bool)
      requires k in objects && HasPrefix(k, t.prefix)
      modifies this
      ensures objects == old(objects) - (if Removed(t, svc, old(objects), k) then {k} else {})
      ensures counted <==> Counted(t, svc, old(objects), k)
      ensures var marked := t.key in old(objects)[k].metadata && old(objects)[k].metadata[t.key] == t.value;
              && (k !in objects <==> marked && !svc.headFails(k) && svc.deleteReply(k) in {Deleted, LostReply})
              && (counted <==> marked && !svc.headFails(k) && svc.deleteReply(k) == Deleted)
    {
      if svc.headFails(k) {
        return false;
      }
      var metadata := objects[k].metadata;
      if t.key in metadata && metadata[t.key] == t.value {
        match svc.deleteReply(k) {
          case Deleted =>
            objects := objects - {k};
            return true;
          case LostReply =>
            objects := objects - {k};
            return false;
          case Refused =>
            return false;
        }
      }
      return false;
    }

    /** One page, key by key. */
    method CleanPage(t: Target, svc: Service, keys: seq<string>, ghost original: Objects, ghost handled: set<string>)
      returns (count: nat)
      requires forall i :: 0 <= i < |keys| ==> keys[i] in original && HasPrefix(keys[i], t.prefix) && keys[i] !in handled
      requires forall i, j :: 0 <= i < j < |keys| ==> keys[i] != keys[j]
      requires objects == original - RemovedAmong(t, svc, original, handled)
      modifies this
      ensures objects == original - RemovedAmong(t, svc, original, handled + KeySet(keys))
      ensures |CountedAmong(t, svc, original, handled)| + count
           == |CountedAmong(t, svc, original, handled + KeySet(keys))|
    {
      hide RemovedAmong, CountedAmong, Matches;
      count := 0;
      ghost var seen := handled;
      for i := 0 to |keys|
        invariant seen == handled + KeySet(keys[..i])
        invariant objects == original - RemovedAmong(t, svc, original, seen)
        invariant |CountedAmong(t, svc, original, handled)| + count == |CountedAmong(t, svc, original, seen)|
      {
        RemoveOneMore(t, svc, original, seen, keys[i]);
        CountOneMore(t, svc, original, seen, keys[i]);
        SameDecision(t, svc, original, objects, keys[i]);
        assert forall k :: k in keys[..i + 1] <==> k in keys[..i] || k == keys[i];
        var counted := CleanOne(t, svc, keys[i]);
        if counted {
          count := count + 1;
        }
        seen := seen + {keys[i]};
      }
      assert keys[..|keys|] == keys;
    }

    /**
     DeleteObjectsByMetadata. It stops at the first listing that fails, or after the last page. What was
     removed and counted is what the metadata and the answers of the service say about exactly the
     keys on the pages of the original listing that were done by then.
     */
    method DeleteObjectsByMetadata(t: Target, svc: Service)
      returns (deleted: nat, failed: bool, ghost pages: nat)
      requires forall n :: svc.pageLimit(n) >= 1
      modifies this
      ensures forall n :: 0 <= n < pages ==>
                !svc.listFails(n) && ListingAfter(old(objects), t.prefix, svc.pageLimit, n).More?
      ensures failed ==> svc.listFails(pages) && ListingAfter(old(objects), t.prefix, svc.pageLimit, pages).More?
      ensures !failed ==> ListingAfter(old(objects), t.prefix, svc.pageLimit, pages).Finished?
      ensures var handled := KeysListed(old(objects), t.prefix, svc.pageLimit, pages);
              && objects == old(objects) - RemovedAmong(t, svc, old(objects), handled)
              && deleted == |CountedAmong(t, svc, old(objects), handled)|
      ensures svc.listFails(0) ==> failed && deleted == 0 && objects == old(objects)
    {
      hide List, Beyond, RemovedAmong, CountedAmong, KeySet, ListingAfter, KeysListed, HasPrefix, FreshKeys;
      deleted := 0;
      var token: Option<string> := None;
      var call: nat := 0;
      ghost var original := objects;
      Beginning(t, svc, original);
      while true
        invariant ListingAfter(original, t.prefix, svc.pageLimit, call) == More(token)
        invariant forall n :: 0 <= n < call ==>
                    !svc.listFails(n) && ListingAfter(original, t.prefix, svc.pageLimit, n).More?
        invariant Progress(t, svc, original, objects, deleted, call)
        decreases |Beyond(original, t.prefix, token)|
      {
        if svc.listFails(call) {
          return deleted, true, call;
        }
        var page := List(objects, t.prefix, token, svc.pageLimit(call));
        NextPage(t, svc, original, objects, deleted, call, token);
        var count := CleanPage(t, svc, page.keys, original, KeysListed(original, t.prefix, svc.pageLimit, call));
        deleted := deleted + count;
        if !page.truncated {
          return deleted, false, call + 1;
        }
        token := Some(page.keys[|page.keys| - 1]);
        call := call + 1;
      }
    }
  }

  /** What has been done to the bucket after some pages. */
  ghost predicate Progress(t: Target, svc: Service, original: Objects, objects: Objects, deleted: nat, pages: nat)
    requires forall n :: svc.pageLimit(n) >= 1
  {
    var handled := KeysListed(original, t.prefix, svc.pageLimit, pages);
    objects == original - RemovedAmong(t, svc, original, handled) && deleted == |CountedAmong(t, svc, original, handled)|
  }

  /** The next page listed in the middle of a cleanup is the next page of the original listing. */
  lemma NextPage(t: Target, svc: Service, original: Objects, objects: Objects, deleted: nat, pages: nat, token: Option<string>)
    requires forall n :: svc.pageLimit(n) >= 1
    requires ListingAfter(original, t.prefix, svc.pageLimit, pages) == More(token)
    requires Progress(t, svc, original, objects, deleted, pages)
    ensures var page := List(objects, t.prefix, token, svc.pageLimit(pages));
            var handled := KeysListed(original, t.prefix, svc.pageLimit, pages);
            && (forall i :: 0 <= i < |page.keys| ==>
                  page.keys[i] in original && HasPrefix(page.keys[i], t.prefix) && page.keys[i] !in handled)
            && (forall i, j :: 0 <= i < j < |page.keys| ==> page.keys[i] != page.keys[j])
            && KeysListed(original, t.prefix, svc.pageLimit, pages + 1) == handled + KeySet(page.keys)
            && (!page.truncated ==> ListingAfter(original, t.prefix, svc.pageLimit, pages + 1) == Finished)
            && (page.truncated ==>
                  && ListingAfter(original, t.prefix, svc.pageLimit, pages + 1) == More(Some(page.keys[|page.keys| - 1]))
                  && |Beyond(original, t.prefix, Some(page.keys[|page.keys| - 1]))| < |Beyond(original, t.prefix, token)|)
  {
    hide List, RemovedAmong, CountedAmong, KeySet;
    KeysListedAre(original, t.prefix, svc.pageLimit, pages);
    ListedPage(t, svc, original, objects, token, svc.pageLimit(pages));
    FreshIsNew(original, t.prefix, token, List(objects, t.prefix, token, svc.pageLimit(pages)).keys);
  }

  lemma FreshIsNew(objects: Objects, prefix: string, token: Option<string>, keys: seq<string>)
    requires FreshKeys(objects, prefix, token, keys)
    ensures forall i :: 0 <= i < |keys| ==>
              keys[i] in objects && HasPrefix(keys[i], prefix) && keys[i] !in HandledBefore(objects, prefix, token)
  {
  }

  /** Where a listing of a bucket that does not change stands after some pages. */
  datatype Listing = More(token: Option<string>) | Finished

  function ListingAfter(objects: Objects, prefix: string, limit: nat -> nat, pages: nat): Listing
    requires forall n :: limit(n) >= 1
  {
    if pages == 0 then More(None) else
    match ListingAfter(objects, prefix, limit, pages - 1)
    case Finished => Finished
    case More(token) =>
      var page := List(objects, prefix, token, limit(pages - 1));
      if page.truncated then More(Some(page.keys[|page.keys| - 1])) else Finished
  }

  /** The keys on its first pages. */
  function KeysListed(objects: Objects, prefix: string, limit: nat -> nat, pages: nat): set<string>
    requires forall n :: limit(n) >= 1
  {
    if pages == 0 then {} else
    KeysListed(objects, prefix, limit, pages - 1) +
    match ListingAfter(objects, prefix, limit, pages - 1)
    case Finished => {}
    case More(token) => KeySet(List(objects, prefix, token, limit(pages - 1)).keys)
  }

  /** The pages of a listing cover the keys up to its token, and everything under the prefix once it is finished. */
  lemma {:induction false} KeysListedAre(objects: Objects, prefix: string, limit: nat -> nat, pages: nat)
    requires forall n :: limit(n) >= 1
    ensures KeysListed(objects, prefix, limit, pages)
         == match ListingAfter(objects, prefix, limit, pages)
            case Finished => UnderPrefix(objects, prefix)
            case More(token) => HandledBefore(objects, prefix, token)
  {
    hide List, HandledBefore, UnderPrefix, KeySet;
    if pages == 0 {
      NothingHandled(objects, prefix);
    } else {
      KeysListedAre(objects, prefix, limit, pages - 1);
      var before := ListingAfter(objects, prefix, limit, pages - 1);
      if before.More? {
        OnePage(objects, prefix, before.token, limit(pages - 1));
      }
    }
  }

  lemma Beginning(t: Target, svc: Service, objects: Objects)
    requires forall n :: svc.pageLimit(n) >= 1
    ensures ListingAfter(objects, t.prefix, svc.pageLimit, 0) == More(None)
    ensures KeysListed(objects, t.prefix, svc.pageLimit, 0) == {}
    ensures RemovedAmong(t, svc, objects, {}) == {} && CountedAmong(t, svc, objects, {}) == {}
  {
  }

  lemma NothingHandled(objects: Objects, prefix: string)
    ensures HandledBefore(objects, prefix, None) == {}
  {
  }

  lemma RemoveOneMore(t: Target, svc: Service, original: Objects, seen: set<string>, k: string)
    requires k !in seen && k in original
    ensures k in original - RemovedAmong(t, svc, original, seen)
    ensures original - RemovedAmong(t, svc, original, seen + {k})
         == (original - RemovedAmong(t, svc, original, seen)) - (if Removed(t, svc, original, k) then {k} else {})
  {
    var more := if Removed(t, svc, original, k) then {k} else {};
    assert RemovedAmong(t, svc, original, seen + {k}) == RemovedAmong(t, svc, original, seen) + more;
  }

  /** Whether a key is removed or counted depends on its own object only. */
  lemma SameDecision(t: Target, svc: Service, original: Objects, objects: Objects, k: string)
    requires k in original && k in objects && objects[k] == original[k]
    ensures Removed(t, svc, objects, k) == Removed(t, svc, original, k)
    ensures Counted(t, svc, objects, k) == Counted(t, svc, original, k)
  {
  }

  lemma CountOneMore(t: Target, svc: Service, original: Objects, seen: set<string>, k: string)
    requires k !in seen
    ensures |CountedAmong(t, svc, original, seen + {k})|
         == |CountedAmong(t, svc, original, seen)| + (if Counted(t, svc, original, k) then 1 else 0)
  {
    var more := if Counted(t, svc, original, k) then {k} else {};
    assert CountedAmong(t, svc, original, seen + {k}) == CountedAmong(t, svc, original, seen) + more;
  }

  /** Distinct keys under the prefix that have not been handled before the token. */
  ghost predicate FreshKeys(objects: Objects, prefix: string, token: Option<string>, keys: seq<string>)
  {
    && (forall i :: 0 <= i < |keys| ==> keys[i] in Beyond(objects, prefix, token))
    && (forall i, j :: 0 <= i < j < |keys| ==> keys[i] != keys[j])
  }

  /** Deleting what was already listed does not disturb the rest of the listing. */
  lemma ListingIsUnaffected(t: Target, svc: Service, original: Objects, objects: Objects, token: Option<string>)
    requires objects == original - RemovedAmong(t, svc, original, HandledBefore(original, t.prefix, token))
    ensures Beyond(objects, t.prefix, token) == Beyond(original, t.prefix, token)
  {
  }

  lemma PageIsFresh(objects: Objects, prefix: string, token: Option<string>, all: seq<string>, n: nat)
    requires all == Sorted(Beyond(objects, prefix, token)) && n <= |all|
    ensures FreshKeys(objects, prefix, token, all[..n])
  {
    forall i | 0 <= i < n ensures all[i] in Beyond(objects, prefix, token) {
      assert all[i] in all;
    }
    forall i, j | 0 <= i < j < n ensures all[i] != all[j] {
      LessTotal(all[i], all[j]);
    }
  }

  /** A key of the listing is beyond the last key of a page exactly when it is not on the page. */
  lemma BeyondLast(all: seq<string>, limit: nat, i: nat)
    requires forall i, j :: 0 <= i < j < |all| ==> Less(all[i], all[j])
    requires 1 <= limit < |all| && i < |all|
    ensures Less(all[limit - 1], all[i]) <==> all[i] !in all[..limit]
  {
    LessTotal(all[limit - 1], all[i]);
    if i < limit {
      assert all[..limit][i] == all[i];
    } else {
      forall j | 0 <= j < limit ensures all[..limit][j] != all[i] {
        LessTotal(all[j], all[i]);
      }
    }
  }

  lemma NextTokenAt(objects: Objects, prefix: string, token: Option<string>, last: string, k: string)
    requires last in Beyond(objects, prefix, token)
    ensures k in Beyond(objects, prefix, Some(last)) <==> k in Beyond(objects, prefix, token) && Less(last, k)
  {
    if token.Some? && Less(last, k) {
      LessTransitive(token.value, last, k);
    }
  }

  lemma NextToken(objects: Objects, prefix: string, token: Option<string>, all: seq<string>, limit: nat)
    requires all == Sorted(Beyond(objects, prefix, token)) && 1 <= limit < |all|
    ensures Beyond(objects, prefix, Some(all[limit - 1])) == Beyond(objects, prefix, token) - KeySet(all[..limit])
  {
    var before, last := Beyond(objects, prefix, token), all[limit - 1];
    assert last in all;
    forall k ensures k in Beyond(objects, prefix, Some(last)) <==> k in before && k !in all[..limit] {
      NextTokenAt(objects, prefix, token, last, k);
      if k in before {
        assert k in all;
        var i :| 0 <= i < |all| && all[i] == k;
        BeyondLast(all, limit, i);
      }
    }
  }

  lemma SmallerBeyond(beyond: set<string>, rest: set<string>, k: string)
    requires k in beyond && rest <= beyond - {k}
    ensures |rest| < |beyond|
  {
    assert beyond - {k} == rest + (beyond - {k} - rest);
    assert |beyond - {k}| == |beyond| - 1;
  }

  /** The last page leaves nothing unhandled. */
  lemma LastPage(objects: Objects, prefix: string, token: Option<string>, keys: seq<string>)
    requires keys == Sorted(Beyond(objects, prefix, token))
    ensures FreshKeys(objects, prefix, token, keys)
    ensures UnderPrefix(objects, prefix) == HandledBefore(objects, prefix, token) + KeySet(keys)
  {
    PageIsFresh(objects, prefix, token, keys, |keys|);
    assert keys[..|keys|] == keys;
    EverythingHandled(objects, prefix, token, keys);
  }

  /** Any other page moves the token so that exactly its keys become handled, and leaves less to list. */
  lemma TruncatedPage(objects: Objects, prefix: string, token: Option<string>, limit: nat, keys: seq<string>)
    requires var all := Sorted(Beyond(objects, prefix, token)); 1 <= limit < |all| && keys == all[..limit]
    ensures FreshKeys(objects, prefix, token, keys) && keys != []
    ensures HandledBefore(objects, prefix, Some(keys[|keys| - 1]))
         == HandledBefore(objects, prefix, token) + KeySet(keys)
    ensures |Beyond(objects, prefix, Some(keys[|keys| - 1]))| < |Beyond(objects, prefix, token)|
  {
    var all := Sorted(Beyond(objects, prefix, token));
    PageIsFresh(objects, prefix, token, all, limit);
    NextToken(objects, prefix, token, all, limit);
    LastHandled(objects, prefix, token, keys);
  }

  lemma LastHandled(objects: Objects, prefix: string, token: Option<string>, keys: seq<string>)
    requires keys != [] && FreshKeys(objects, prefix, token, keys)
    requires Beyond(objects, prefix, Some(keys[|keys| - 1])) == Beyond(objects, prefix, token) - KeySet(keys)
    ensures HandledBefore(objects, prefix, Some(keys[|keys| - 1]))
         == HandledBefore(objects, prefix, token) + KeySet(keys)
    ensures |Beyond(objects, prefix, Some(keys[|keys| - 1]))| < |Beyond(objects, prefix, token)|
  {
    assert keys[|keys| - 1] in keys;
    SmallerBeyond(Beyond(objects, prefix, token), Beyond(objects, prefix, Some(keys[|keys| - 1])), keys[|keys| - 1]);
  }

  /** A page has keys not listed before; the last one lists everything, and any other leaves less to list. */
  lemma OnePage(objects: Objects, prefix: string, token: Option<string>, limit: nat)
    requires limit >= 1
    ensures var page := List(objects, prefix, token, limit);
            var now := HandledBefore(objects, prefix, token) + KeySet(page.keys);
            && FreshKeys(objects, prefix, token, page.keys)
            && (!page.truncated ==> UnderPrefix(objects, prefix) == now)
            && (page.truncated ==>
                  && page.keys != []
                  && HandledBefore(objects, prefix, Some(page.keys[|page.keys| - 1])) == now
                  && |Beyond(objects, prefix, Some(page.keys[|page.keys| - 1]))| < |Beyond(objects, prefix, token)|)
  {
    var page := List(objects, prefix, token, limit);
    if page.truncated {
      TruncatedPage(objects, prefix, token, limit, page.keys);
    } else {
      LastPage(objects, prefix, token, page.keys);
    }
  }

  /** A page listed in the middle of a cleanup is that page of the objects it started from. */
  lemma ListedPage(t: Target, svc: Service, original: Objects, objects: Objects, token: Option<string>, limit: nat)
    requires limit >= 1
    requires objects == original - RemovedAmong(t, svc, original, HandledBefore(original, t.prefix, token))
    ensures List(objects, t.prefix, token, limit) == List(original, t.prefix, token, limit)
    ensures var page, handled := List(objects, t.prefix, token, limit), HandledBefore(original, t.prefix, token);
            var now := handled + KeySet(page.keys);
            && FreshKeys(original, t.prefix, token, page.keys)
            && (!page.truncated ==> UnderPrefix(original, t.prefix) == now)
            && (page.truncated ==>
                  && page.keys != []
                  && HandledBefore(original, t.prefix, Some(page.keys[|page.keys| - 1])) == now
                  && |Beyond(original, t.prefix, Some(page.keys[|page.keys| - 1]))| < |Beyond(original, t.prefix, token)|)
  {
    hide Sorted, HandledBefore, UnderPrefix, RemovedAmong, KeySet;
    ListingIsUnaffected(t, svc, original, objects, token);
    OnePage(original, t.prefix, token, limit);
  }

  lemma EverythingHandled(objects: Objects, prefix: string, token: Option<string>, all: seq<string>)
    requires forall k :: k in all <==> k in Beyond(objects, prefix, token)
    ensures UnderPrefix(objects, prefix) == HandledBefore(objects, prefix, token) + KeySet(all)
  {
  }

  // ---------------------------------------------------------------------------------------------
  // What a cleanup achieves

  predicate Reliable(svc: Service, k: string)
  {
    !svc.headFails(k) && svc.deleteReply(k) == Deleted
  }

  /** Deleted keys whose deletion was not reported. */
  function LostAmong(t: Target, svc: Service, objects: Objects, handled: set<string>): set<string>
  {
    set k | k in handled && Matches(t, objects, k) && !svc.headFails(k) && svc.deleteReply(k) == LostReply
  }

  /** Replies lost on the way account for the difference between the drop in size and the count. */
  lemma CountVersusDrop(t: Target, svc: Service, objects: Objects, handled: set<string>)
    requires handled <= objects.Keys
    ensures |objects| - |objects - RemovedAmong(t, svc, objects, handled)|
         == |CountedAmong(t, svc, objects, handled)| + |LostAmong(t, svc, objects, handled)|
  {
    var removed, counted := RemovedAmong(t, svc, objects, handled), CountedAmong(t, svc, objects, handled);
    assert removed - counted == LostAmong(t, svc, objects, handled);
    SizeDrop(objects, removed, counted);
  }

  lemma SizeDrop(objects: Objects, removed: set<string>, counted: set<string>)
    requires counted <= removed <= objects.Keys
    ensures |objects| - |objects - removed| == |removed| == |counted| + |removed - counted|
  {
    assert (objects - removed).Keys == objects.Keys - removed;
    assert |objects.Keys - removed| == |objects.Keys| - |removed|;
    assert |removed - counted| == |removed| - |counted|;
  }

  /**
   Exactly when a cleanup whose listings succeed leaves no matching object: when every matching one
   could be headed and its delete was not refused. Every other object is untouched in any case.
   */
  lemma CleanupIsCompleteIff(t: Target, svc: Service, objects: Objects)
    ensures var after := objects - RemovedAmong(t, svc, objects, UnderPrefix(objects, t.prefix));
            && ((forall k :: !Matches(t, after, k)) <==>
                forall k :: Matches(t, objects, k) ==> !svc.headFails(k) && svc.deleteReply(k) != Refused)
            && (forall k :: k in objects && !Matches(t, objects, k) ==> k in after && after[k] == objects[k])
  {
    var after := objects - RemovedAmong(t, svc, objects, UnderPrefix(objects, t.prefix));
    forall k ensures Matches(t, after, k) <==> Matches(t, objects, k) && !Removed(t, svc, objects, k) {
    }
  }

  /** If no call fails the count returned is the number of objects that disappeared. */
  lemma ReliableCount(t: Target, svc: Service, objects: Objects)
    requires forall k :: Matches(t, objects, k) ==> Reliable(svc, k)
    ensures |CountedAmong(t, svc, objects, UnderPrefix(objects, t.prefix))|
         == |objects| - |objects - RemovedAmong(t, svc, objects, UnderPrefix(objects, t.prefix))|
  {
    var handled := UnderPrefix(objects, t.prefix);
    CountVersusDrop(t, svc, objects, handled);
    assert LostAmong(t, svc, objects, handled) == {};
  }

  /** However the calls fail, only objects under the prefix with the given metadata are ever removed. */
  lemma OnlyMatchingAreRemoved(t: Target, svc: Service, objects: Objects, handled: set<string>, k: string)
    requires k in objects && k !in objects - RemovedAmong(t, svc, objects, handled)
    ensures Matches(t, objects, k)
  {
  }
}
