/** An S3 bucket as an atomic map, with the paged listing of ListObjectsV2. */
module Store {
  import opened Basics
  import opened Streams
  import opened Strings

  datatype Object = Object(content: seq<byte>, metadata: map<string, string>)

  type Objects = map<string, Object>

  predicate IsLeast(s: set<string>, x: string)
  {
    x in s && forall k :: k in s ==> k == x || Less(x, k)
  }

  lemma {:induction false} LeastExists(s: set<string>)
    requires s != {}
    ensures exists x :: IsLeast(s, x)
    decreases |s|
  {
    var x :| x in s;
    if s - {x} == {} {
      assert s == {x};
      assert IsLeast(s, x);
    } else {
      LeastExists(s - {x});
      var y :| IsLeast(s - {x}, y);
      LessTotal(x, y);
      if Less(x, y) {
        forall k | k in s ensures k == x || Less(x, k) {
          if k != x && k != y {
            LessTransitive(x, y, k);
          }
        }
        assert IsLeast(s, x);
      } else {
        assert IsLeast(s, y);
      }
    }
  }

  lemma LeastIsUnique(s: set<string>)
    ensures forall x, y :: IsLeast(s, x) && IsLeast(s, y) ==> x == y
  {
    forall x, y | IsLeast(s, x) && IsLeast(s, y) ensures x == y {
      LessTotal(x, y);
    }
  }

  /** The first key of a non-empty set in listing order. */
  function Least(s: set<string>): (least: string)
    requires s != {}
    ensures IsLeast(s, least)
  {
    LeastExists(s);
    LeastIsUnique(s);
    var least :| least in s && IsLeast(s, least);
    least
  }

  /** The keys of a set in listing order. */
  function Sorted(s: set<string>): (keys: seq<string>)
    ensures |keys| == |s|
    ensures forall k :: k in keys <==> k in s
    ensures forall i, j :: 0 <= i < j < |keys| ==> Less(keys[i], keys[j])
  {
    if s == {} then [] else
    var least := Least(s);
    [least] + Sorted(s - {least})
  }

  /** Keys under a prefix that come after a continuation token. */
  function Beyond(objects: Objects, prefix: string, token: Option<string>): set<string>
  {
    set k | k in objects && HasPrefix(k, prefix) && (token.Some? ==> Less(token.value, k))
  }

  datatype Page = Page(keys: seq<string>, truncated: bool)

  /** ListObjectsV2 with at most limit keys a page, starting after the token. */
  function List(objects: Objects, prefix: string, token: Option<string>, limit: nat): (page: Page)
    requires limit >= 1
    ensures |page.keys| <= limit && (page.truncated ==> |page.keys| == limit)
  {
    var all := Sorted(Beyond(objects, prefix, token));
    if |all| <= limit then Page(all, false) else Page(all[..limit], true)
  }
}
