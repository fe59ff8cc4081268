/** Object metadata of internal/data/verifier.go: the hand-written tag splitter, PrepareMetadata and verification by hash. */
module Metadata {

  const KEY_SHA256 := "sha256"
  const KEY_CREATED_BY := "created-by"
  const VALUE_CREATED_BY := "s3-workload"

  // ---------------------------------------------------------------------------------------------
  // Splitting

  /** All pieces between separators, empty ones included. */
  function Pieces(s: string, sep: char): (parts: seq<string>)
    ensures |parts| >= 1
  {
    if s == "" then [""] else
    var parts := Pieces(s[..|s| - 1], sep);
    var c := s[|s| - 1];
    if c == sep then parts + [""]
    else parts[..|parts| - 1] + [parts[|parts| - 1] + [c]]
  }

  /** What splitString returns: the pieces without a last empty one, unless it is the only one. */
  function Split(s: string, sep: char): (parts: seq<string>)
    ensures |parts| >= 1
  {
    var parts := Pieces(s, sep);
    if parts[|parts| - 1] != "" || |parts| == 1 then parts else parts[..|parts| - 1]
  }

  method SplitString(s: string, sep: char) returns (parts: seq<string>)
    ensures parts == Split(s, sep)
  {
    parts := [];
    var current := "";
    for i := 0 to |s|
      invariant parts + [current] == Pieces(s[..i], sep)
    {
      assert s[..i + 1][..i] == s[..i];
      if s[i] == sep {
        parts := parts + [current];
        current := "";
      } else {
        current := current + [s[i]];
      }
    }
    assert s[..|s|] == s;
    assert (parts + [current])[..|parts|] == parts;
    if current != "" || |parts| == 0 {
      parts := parts + [current];
    }
  }

  function Join(parts: seq<string>, sep: char): string
    requires |parts| >= 1
  {
    if |parts| == 1 then parts[0] else Join(parts[..|parts| - 1], sep) + [sep] + parts[|parts| - 1]
  }

  lemma JoinExtendsLast(parts: seq<string>, last: string, c: char, sep: char)
    ensures Join(parts + [last + [c]], sep) == Join(parts + [last], sep) + [c]
  {
    if parts != [] {
      assert (parts + [last + [c]])[..|parts|] == parts == (parts + [last])[..|parts|];
    }
  }

  /** Joining the pieces gives the string back. */
  lemma {:induction false} PiecesJoin(s: string, sep: char)
    ensures Join(Pieces(s, sep), sep) == s
  {
    if s != "" {
      var init, c := s[..|s| - 1], s[|s| - 1];
      var parts := Pieces(init, sep);
      PiecesJoin(init, sep);
      assert s == init + [c];
      if c == sep {
        assert (parts + [""])[..|parts|] == parts;
      } else {
        var front, last := parts[..|parts| - 1], parts[|parts| - 1];
        assert parts == front + [last];
        JoinExtendsLast(front, last, c, sep);
      }
    }
  }

  /** No part contains the separator. */
  predicate Plain(parts: seq<string>, sep: char)
  {
    forall p :: p in parts ==> sep !in p
  }

  lemma {:induction false} PiecesArePlain(s: string, sep: char)
    ensures Plain(Pieces(s, sep), sep)
  {
    if s != "" {
      PiecesArePlain(s[..|s| - 1], sep);
    }
  }

  lemma PiecesSnocPlain(s: string, c: char, sep: char)
    requires c != sep
    ensures var parts := Pieces(s, sep); Pieces(s + [c], sep) == ExtendLast(parts, [c])
  {
    assert (s + [c])[..|s|] == s;
  }

  function ExtendLast(parts: seq<string>, t: string): seq<string>
    requires |parts| >= 1
  {
    parts[..|parts| - 1] + [parts[|parts| - 1] + t]
  }

  lemma ExtendTwice(parts: seq<string>, u: string, c: char)
    requires |parts| >= 1
    ensures ExtendLast(ExtendLast(parts, u), [c]) == ExtendLast(parts, u + [c])
  {
    var last := parts[|parts| - 1];
    assert last + u + [c] == last + (u + [c]);
  }

  lemma {:induction false} PiecesAppendPlain(s: string, t: string, sep: char)
    requires sep !in t
    ensures Pieces(s + t, sep) == ExtendLast(Pieces(s, sep), t)
    decreases |t|
  {
    hide Pieces;
    var parts := Pieces(s, sep);
    if t == "" {
      assert s + t == s && parts[|parts| - 1] + t == parts[|parts| - 1];
    } else {
      var u, c := t[..|t| - 1], t[|t| - 1];
      assert t == u + [c] && c in t;
      assert s + t == (s + u) + [c];
      PiecesAppendPlain(s, u, sep);
      PiecesSnocPlain(s + u, c, sep);
      ExtendTwice(parts, u, c);
    }
  }

  /** Splitting undoes joining. */
  lemma {:induction false} JoinPieces(parts: seq<string>, sep: char)
    requires |parts| >= 1 && Plain(parts, sep)
    ensures Pieces(Join(parts, sep), sep) == parts
  {
    var front, last := parts[..|parts| - 1], parts[|parts| - 1];
    assert parts == front + [last];
    if front == [] {
      PiecesAppendPlain("", last, sep);
      assert "" + last == last;
    } else {
      JoinPieces(front, sep);
      var s := Join(front, sep) + [sep];
      assert s[..|s| - 1] == Join(front, sep);
      assert Pieces(s, sep) == front + [""];
      PiecesAppendPlain(s, last, sep);
      assert "" + last == last;
    }
  }

  /** The pieces are the only sequence of parts without separator that joins to the string. */
  lemma PiecesIff(s: string, sep: char, parts: seq<string>)
    requires |parts| >= 1
    ensures parts == Pieces(s, sep) <==> Plain(parts, sep) && Join(parts, sep) == s
  {
    PiecesJoin(s, sep);
    PiecesArePlain(s, sep);
    if Plain(parts, sep) && Join(parts, sep) == s {
      JoinPieces(parts, sep);
    }
  }

  /** splitString loses nothing but one trailing separator. */
  lemma SplitRoundTrip(s: string, sep: char)
    ensures var t := Join(Split(s, sep), sep);
            s == if s != "" && s[|s| - 1] == sep then t + [sep] else t
  {
    PiecesJoin(s, sep);
    if s != "" {
      var init := s[..|s| - 1];
      PiecesJoin(init, sep);
      assert s == init + [s[|s| - 1]];
      var parts := Pieces(init, sep);
      if s[|s| - 1] == sep {
        assert (parts + [""])[..|parts|] == parts;
      }
    }
  }

  // ---------------------------------------------------------------------------------------------
  // Trimming

  predicate Blank(c: char)
  {
    c == ' ' || c == '\t'
  }

  function TrimLeft(s: string): string
  {
    if s != "" && Blank(s[0]) then TrimLeft(s[1..]) else s
  }

  function TrimRight(s: string): string
  {
    if s != "" && Blank(s[|s| - 1]) then TrimRight(s[..|s| - 1]) else s
  }

  function Trimmed(s: string): string
  {
    TrimRight(TrimLeft(s))
  }

  predicate AllBlank(s: string)
  {
    forall i :: 0 <= i < |s| ==> Blank(s[i])
  }

  lemma {:induction false} TrimLeftDrops(s: string) returns (before: string)
    ensures s == before + TrimLeft(s) && AllBlank(before)
    ensures TrimLeft(s) != "" ==> !Blank(TrimLeft(s)[0])
  {
    if s != "" && Blank(s[0]) {
      before := TrimLeftDrops(s[1..]);
      before := [s[0]] + before;
      assert s == [s[0]] + s[1..];
    } else {
      before := "";
    }
  }

  lemma {:induction false} TrimRightDrops(s: string) returns (after: string)
    ensures s == TrimRight(s) + after && AllBlank(after)
    ensures TrimRight(s) != "" ==> !Blank(TrimRight(s)[|TrimRight(s)| - 1])
  {
    if s != "" && Blank(s[|s| - 1]) {
      after := TrimRightDrops(s[..|s| - 1]);
      after := after + [s[|s| - 1]];
      assert s == s[..|s| - 1] + [s[|s| - 1]];
    } else {
      after := "";
    }
  }

  /** Trimming takes away blanks only, and all of them at both ends. */
  lemma TrimmedIs(s: string) returns (before: string, after: string)
    ensures s == before + Trimmed(s) + after && AllBlank(before) && AllBlank(after)
    ensures forall c :: c in before + after ==> c in {' ', '\t'}
    ensures Trimmed(s) != "" ==>
              !Blank(Trimmed(s)[0]) && !Blank(Trimmed(s)[|Trimmed(s)| - 1])
              && Trimmed(s)[0] !in {' ', '\t'} && Trimmed(s)[|Trimmed(s)| - 1] !in {' ', '\t'}
  {
    before := TrimLeftDrops(s);
    after := TrimRightDrops(TrimLeft(s));
  }

  method Trim(s: string) returns (r: string)
    ensures r == Trimmed(s)
  {
    var start := BlanksBefore(s);
    var end := BlanksAfter(s, start);
    r := s[start..end];
  }

  /** The first loop of trim. */
  method BlanksBefore(s: string) returns (start: nat)
    ensures start <= |s| && s[start..] == TrimLeft(s)
  {
    start := 0;
    while start < |s| && Blank(s[start])
      invariant 0 <= start <= |s|
      invariant TrimLeft(s[start..]) == TrimLeft(s)
    {
      assert s[start..][1..] == s[start + 1..];
      start := start + 1;
    }
  }

  /** The second loop of trim. */
  method BlanksAfter(s: string, start: nat) returns (end: nat)
    requires start <= |s|
    ensures start <= end <= |s| && s[start..end] == TrimRight(s[start..])
  {
    end := |s|;
    assert s[start..end] == s[start..];
    while end > start && Blank(s[end - 1])
      invariant start <= end <= |s|
      invariant TrimRight(s[start..end]) == TrimRight(s[start..])
    {
      assert s[start..end][..end - start - 1] == s[start..end - 1];
      end := end - 1;
    }
  }

  // ---------------------------------------------------------------------------------------------
  // Tags

  /** The non-empty trimmed pieces. */
  function TrimmedParts(parts: seq<string>): seq<string>
  {
    if parts == [] then [] else
    var last := Trimmed(parts[|parts| - 1]);
    TrimmedParts(parts[..|parts| - 1]) + if last != "" then [last] else []
  }

  method SplitCommaSeparated(s: string) returns (r: seq<string>)
    ensures r == TrimmedParts(Split(s, ','))
  {
    var parts := SplitString(s, ',');
    r := [];
    for i := 0 to |parts|
      invariant r == TrimmedParts(parts[..i])
    {
      assert parts[..i + 1][..i] == parts[..i];
      var trimmed := Trim(parts[i]);
      if trimmed != "" {
        r := r + [trimmed];
      }
    }
    assert parts[..|parts|] == parts;
  }

  function KeyAndValue(pair: string): (kv: seq<string>)
  {
    var parts := Split(pair, '=');
    seq(|parts|, i requires 0 <= i < |parts| => Trimmed(parts[i]))
  }

  method SplitEqual(s: string) returns (r: seq<string>)
    ensures r == KeyAndValue(s)
  {
    var parts := SplitString(s, '=');
    r := [];
    for i := 0 to |parts|
      invariant |r| == i && forall k :: 0 <= k < i ==> r[k] == Trimmed(parts[k])
    {
      var trimmed := Trim(parts[i]);
      r := r + [trimmed];
    }
  }

  function Entries(pairs: seq<string>): map<string, string>
  {
    if pairs == [] then map[] else
    var kv := KeyAndValue(pairs[|pairs| - 1]);
    var m := Entries(pairs[..|pairs| - 1]);
    if |kv| == 2 then m[kv[0] := kv[1]] else m
  }

  function TagEntries(tag: string): map<string, string>
  {
    Entries(TrimmedParts(Split(tag, ',')))
  }

  method SplitTag(tag: string) returns (r: map<string, string>)
    ensures r == TagEntries(tag)
  {
    r := map[];
    var pairs := SplitCommaSeparated(tag);
    for i := 0 to |pairs|
      invariant r == Entries(pairs[..i])
    {
      assert pairs[..i + 1][..i] == pairs[..i];
      var kv := SplitEqual(pairs[i]);
      if |kv| == 2 {
        r := r[kv[0] := kv[1]];
      }
    }
    assert pairs[..|pairs|] == pairs;
  }

  function Prepared(hash: string, tag: string): map<string, string>
  {
    map[KEY_SHA256 := hash, KEY_CREATED_BY := VALUE_CREATED_BY] + TagEntries(tag)
  }

  method PrepareMetadata(hash: string, namespaceTag: string) returns (metadata: map<string, string>)
    ensures metadata == Prepared(hash, namespaceTag)
  {
    metadata := map[KEY_SHA256 := hash, KEY_CREATED_BY := VALUE_CREATED_BY];
    ghost var base := metadata;
    if namespaceTag != "" {
      var entries := SplitTag(namespaceTag);
      var keys := entries.Keys;
      while keys != {}
        invariant keys <= entries.Keys
        invariant metadata == base + (map k | k in entries.Keys - keys :: entries[k])
      {
        var k :| k in keys;
        metadata := metadata[k := entries[k]];
        keys := keys - {k};
      }
      assert (map k | k in entries.Keys - keys :: entries[k]) == entries;
    }
  }

  datatype Verification = Verified | NoHash | Mismatch

  /** VerifyWithMetadata on a body whose bytes hash to actual. */
  function VerifyHash(actual: string, metadata: map<string, string>): (v: Verification)
    ensures v == NoHash <==> "sha256" !in metadata
    ensures v == Verified <==> "sha256" in metadata && metadata["sha256"] == actual
  {
    if KEY_SHA256 !in metadata then NoHash
    else if actual != metadata[KEY_SHA256] then Mismatch
    else Verified
  }

  // ---------------------------------------------------------------------------------------------
  // What a tag says

  /** PrepareMetadata stores the two reserved entries and every entry of the tag, which win, and nothing else. */
  lemma PreparedIs(hash: string, tag: string)
    ensures var m, entries := Prepared(hash, tag), TagEntries(tag);
            && m.Keys == {"sha256", "created-by"} + entries.Keys
            && (forall k :: k in entries ==> m[k] == entries[k])
            && ("sha256" !in entries ==> m["sha256"] == hash)
            && ("created-by" !in entries ==> m["created-by"] == "s3-workload")
  {
  }

  /** Trimming and dropping empty pieces works piece by piece and keeps the order. */
  lemma {:induction false} TrimmedPartsAppend(xs: seq<string>, ys: seq<string>)
    ensures TrimmedParts(xs + ys) == TrimmedParts(xs) + TrimmedParts(ys)
    decreases |ys|
  {
    if ys == [] {
      assert xs + ys == xs;
    } else {
      TrimmedPartsAppend(xs, ys[..|ys| - 1]);
      assert (xs + ys)[..|xs + ys| - 1] == xs + ys[..|ys| - 1];
    }
  }

  lemma TrimmedPartOf(p: string)
    ensures TrimmedParts([p]) == if AllBlank(p) then [] else [Trimmed(p)]
    ensures Trimmed(p) == "" <==> AllBlank(p)
  {
    assert [p][..0] == [];
    var before, after := TrimmedIs(p);
    if Trimmed(p) == "" {
      assert p == before + after;
    } else {
      assert p[|before|] == Trimmed(p)[0];
    }
  }

  ghost predicate SetsKey(pair: string, k: string)
  {
    |KeyAndValue(pair)| == 2 && KeyAndValue(pair)[0] == k
  }

  /** Pair i sets k to v, and no later pair sets k. */
  ghost predicate SetsLast(pairs: seq<string>, i: nat, k: string, v: string)
  {
    i < |pairs| && KeyAndValue(pairs[i]) == [k, v] && forall j :: i < j < |pairs| ==> !SetsKey(pairs[j], k)
  }

  lemma SetsLastFront(front: seq<string>, last: string, i: nat, k: string, v: string)
    ensures SetsLast(front + [last], i, k, v)
       <==> if SetsKey(last, k) then i == |front| && KeyAndValue(last)[1] == v else SetsLast(front, i, k, v)
  {
    var pairs := front + [last];
    assert pairs[|front|] == last;
    if SetsKey(last, k) {
      assert KeyAndValue(last) == [k, KeyAndValue(last)[1]];
    }
    if SetsLast(front, i, k, v) && !SetsKey(last, k) {
      forall j | i < j < |pairs| ensures !SetsKey(pairs[j], k) {
        assert j < |front| ==> pairs[j] == front[j];
      }
    }
    if SetsLast(pairs, i, k, v) && i < |front| {
      assert !SetsKey(pairs[|front|], k);
      forall j | i < j < |front| ensures !SetsKey(front[j], k) {
        assert pairs[j] == front[j];
      }
    }
  }

  /** An entry comes from the last pair of exactly two pieces with its key. */
  lemma {:induction false} EntriesIff(pairs: seq<string>, k: string, v: string)
    ensures k in Entries(pairs) && Entries(pairs)[k] == v <==> exists i: nat :: SetsLast(pairs, i, k, v)
  {
    if pairs != [] {
      var front, last := pairs[..|pairs| - 1], pairs[|pairs| - 1];
      assert pairs == front + [last];
      EntriesIff(front, k, v);
      forall i: nat
        ensures SetsLast(pairs, i, k, v)
           <==> if SetsKey(last, k) then i == |front| && KeyAndValue(last)[1] == v else SetsLast(front, i, k, v)
      {
        SetsLastFront(front, last, i, k, v);
      }
      if SetsKey(last, k) {
        assert Entries(pairs)[k] == KeyAndValue(last)[1];
        assert KeyAndValue(last)[1] == v ==> SetsLast(pairs, |front|, k, v);
      } else {
        assert k in Entries(pairs) <==> k in Entries(front);
        if i: nat :| SetsLast(front, i, k, v) {
          assert SetsLast(pairs, i, k, v);
        }
      }
    }
  }

  lemma {:induction false} BlanksLeft(before: string, s: string)
    requires AllBlank(before) && (s != "" ==> !Blank(s[0]))
    ensures TrimLeft(before + s) == s
  {
    if before == "" {
      assert before + s == s;
    } else {
      BlanksLeft(before[1..], s);
      assert (before + s)[1..] == before[1..] + s;
    }
  }

  lemma {:induction false} BlanksRight(s: string, after: string)
    requires AllBlank(after) && (s != "" ==> !Blank(s[|s| - 1]))
    ensures TrimRight(s + after) == s
  {
    if after == "" {
      assert s + after == s;
    } else {
      var r := s + after;
      BlanksRight(s, after[..|after| - 1]);
      assert r[..|r| - 1] == s + after[..|after| - 1];
    }
  }

  lemma TrimmedBetween(before: string, s: string, after: string)
    requires AllBlank(before) && AllBlank(after) && s != "" && !Blank(s[0]) && !Blank(s[|s| - 1])
    ensures Trimmed(before + s + after) == s
  {
    assert before + s + after == before + (s + after);
    BlanksLeft(before, s + after);
    BlanksRight(s, after);
  }

  /** A pair is split at every "=", and each piece is trimmed. */
  lemma PiecesOfPair(parts: seq<string>)
    requires |parts| >= 1 && Plain(parts, '=') && (|parts| > 1 ==> parts[|parts| - 1] != "")
    ensures |KeyAndValue(Join(parts, '='))| == |parts|
    ensures forall i :: 0 <= i < |parts| ==> KeyAndValue(Join(parts, '='))[i] == Trimmed(parts[i])
  {
    JoinPieces(parts, '=');
  }

  /** Blanks around the key and the value do not matter. */
  lemma BlanksAroundPair(k: string, v: string, b1: string, b2: string, b3: string, b4: string)
    requires Clean(k) && Clean(v) && AllBlank(b1) && AllBlank(b2) && AllBlank(b3) && AllBlank(b4)
    ensures KeyAndValue(b1 + k + b2 + "=" + (b3 + v + b4)) == [k, v]
  {
    var left, right := b1 + k + b2, b3 + v + b4;
    PlainBetween(b1, k, b2);
    PlainBetween(b3, v, b4);
    assert [left, right][..1] == [left];
    assert Join([left, right], '=') == left + "=" + right;
    PiecesOfPair([left, right]);
    TrimmedBetween(b1, k, b2);
    TrimmedBetween(b3, v, b4);
  }

  lemma PlainBetween(before: string, s: string, after: string)
    requires Clean(s) && AllBlank(before) && AllBlank(after)
    ensures '=' !in before + s + after
  {
  }

  // ---------------------------------------------------------------------------------------------
  // What a tag may break

  /** Tag entries win over the reserved keys: the stored hash is right for every object exactly when the tag leaves its key alone. */
  lemma HashSurvivesIff(tag: string)
    ensures (forall hash :: VerifyHash(hash, Prepared(hash, tag)) == Verified) <==> KEY_SHA256 !in TagEntries(tag)
  {
    if KEY_SHA256 in TagEntries(tag) {
      var other := TagEntries(tag)[KEY_SHA256] + "!";
      assert VerifyHash(other, Prepared(other, tag)) == Mismatch;
    }
  }

  /** Cleanup recognises the tool's objects exactly when the tag does not give created-by another value. */
  lemma MarkSurvivesIff(hash: string, tag: string)
    ensures KEY_CREATED_BY in Prepared(hash, tag)
    ensures Prepared(hash, tag)[KEY_CREATED_BY] == VALUE_CREATED_BY
       <==> (KEY_CREATED_BY in TagEntries(tag) ==> TagEntries(tag)[KEY_CREATED_BY] == VALUE_CREATED_BY)
  {
  }

  // ---------------------------------------------------------------------------------------------
  // Tags round trip

  /** A key or value that survives the splitter: not empty, no separator, no blank at either end. */
  predicate Clean(s: string)
  {
    s != "" && ',' !in s && '=' !in s && !Blank(s[0]) && !Blank(s[|s| - 1])
  }

  function FormatPair(k: string, v: string): string
  {
    k + "=" + v
  }

  function FormatPairs(kvs: seq<(string, string)>): (r: seq<string>)
    ensures |r| == |kvs|
  {
    if kvs == [] then []
    else FormatPairs(kvs[..|kvs| - 1]) + [FormatPair(kvs[|kvs| - 1].0, kvs[|kvs| - 1].1)]
  }

  function AsMap(kvs: seq<(string, string)>): map<string, string>
  {
    if kvs == [] then map[] else AsMap(kvs[..|kvs| - 1])[kvs[|kvs| - 1].0 := kvs[|kvs| - 1].1]
  }

  lemma PairRoundTrip(k: string, v: string)
    requires Clean(k) && Clean(v)
    ensures KeyAndValue(FormatPair(k, v)) == [k, v]
    ensures Trimmed(FormatPair(k, v)) == FormatPair(k, v) != "" && ',' !in FormatPair(k, v)
  {
    assert [k, v][..1] == [k];
    assert Join([k, v], '=') == FormatPair(k, v);
    JoinPieces([k, v], '=');
    assert Trimmed(k) == k && Trimmed(v) == v;
  }

  lemma {:induction false} PairsRoundTrip(kvs: seq<(string, string)>)
    requires forall kv :: kv in kvs ==> Clean(kv.0) && Clean(kv.1)
    ensures forall p :: p in FormatPairs(kvs) ==> ',' !in p && p != ""
    ensures TrimmedParts(FormatPairs(kvs)) == FormatPairs(kvs)
    ensures Entries(FormatPairs(kvs)) == AsMap(kvs)
  {
    if kvs != [] {
      var front, last := kvs[..|kvs| - 1], kvs[|kvs| - 1];
      PairsRoundTrip(front);
      PairRoundTrip(last.0, last.1);
      assert FormatPairs(kvs)[..|kvs| - 1] == FormatPairs(front);
    }
  }

  /** A tag written as "k=v,k=v,..." of clean keys and values is read back exactly, later entries winning. */
  lemma TagRoundTrip(kvs: seq<(string, string)>)
    requires kvs != [] && forall kv :: kv in kvs ==> Clean(kv.0) && Clean(kv.1)
    ensures TagEntries(Join(FormatPairs(kvs), ',')) == AsMap(kvs)
  {
    PairsRoundTrip(kvs);
    JoinPieces(FormatPairs(kvs), ',');
    assert FormatPairs(kvs)[|kvs| - 1] in FormatPairs(kvs);
  }

  lemma OnePairTag(k: string, v: string)
    requires Clean(k) && Clean(v)
    ensures TagEntries(FormatPair(k, v)) == map[k := v]
  {
    var kvs := [(k, v)];
    assert kvs[..0] == [];
    assert FormatPairs(kvs) == [FormatPair(k, v)];
    TagRoundTrip(kvs);
  }

  lemma ReservedKeysAreClean()
    ensures Clean(KEY_SHA256) && Clean(KEY_CREATED_BY)
  {
  }

  /** The tag "sha256=v" breaks the verification of every object whose hash is not v. */
  lemma TagBreaksHash(v: string, hash: string)
    requires Clean(v) && v != hash
    ensures VerifyHash(hash, Prepared(hash, FormatPair(KEY_SHA256, v))) == Mismatch
  {
    ReservedKeysAreClean();
    OnePairTag(KEY_SHA256, v);
  }

  /** The tag "created-by=v" hides every object from cleanup unless v is the mark itself. */
  lemma TagBreaksMark(v: string, hash: string)
    requires Clean(v) && v != VALUE_CREATED_BY
    ensures var metadata := Prepared(hash, FormatPair(KEY_CREATED_BY, v));
            KEY_CREATED_BY in metadata && metadata[KEY_CREATED_BY] != VALUE_CREATED_BY
  {
    ReservedKeysAreClean();
    OnePairTag(KEY_CREATED_BY, v);
  }
}
