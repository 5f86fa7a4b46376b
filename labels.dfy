/**
 * The two labelling rules used to build classifier training data from a
 * question/answer corpus: the question-type label, decided by substring tests
 * on the reference query, and the double-relation label, decided by comparing
 * the list of ontology/type URIs with the set of its values.
 */
module Labels {

  /** Question-type labels as the classifier emits them. */
  const Select: int := 0
  const Ask: int := 1
  const Count: int := 2

  /** The markers looked for in the reference query. */
  const CountMarker: string := "COUNT("
  const AskMarker: string := "ASK WHERE"

  predicate StartsWith(t: string, pat: string) {
    |pat| <= |t| && t[..|pat|] == pat
  }

  /** Reference meaning of `pat in s` on strings: `pat` occurs at some offset of `s`. */
  ghost predicate Occurs(pat: string, s: string) {
    exists i :: 0 <= i <= |s| && StartsWith(s[i..], pat)
  }

  /** The substring test `pat in s`, scanning `s` from the left. */
  function Contains(s: string, pat: string): (b: bool)
    ensures b <==> Occurs(pat, s)
    decreases |s|
  {
    if |s| < |pat| then
      assert forall i :: 0 <= i <= |s| ==> !StartsWith(s[i..], pat);
      false
    else if StartsWith(s, pat) then
      assert s[0..] == s;
      true
    else
      assert forall i :: 1 <= i <= |s| ==> s[i..] == s[1..][i - 1..];
      assert Occurs(pat, s) ==> Occurs(pat, s[1..]) by {
        if Occurs(pat, s) {
          var i :| 0 <= i <= |s| && StartsWith(s[i..], pat);
          assert i != 0 by { assert s[0..] == s; }
          assert StartsWith(s[1..][i - 1..], pat);
        }
      }
      assert Occurs(pat, s[1..]) ==> Occurs(pat, s) by {
        if Occurs(pat, s[1..]) {
          var j :| 0 <= j <= |s[1..]| && StartsWith(s[1..][j..], pat);
          assert StartsWith(s[j + 1..], pat);
        }
      }
      Contains(s[1..], pat)
  }

  /** The question-type label of a reference query: COUNT wins over ASK, anything else is SELECT. */
  function QuestionTypeLabel(rawQuery: string): (y: int)
    ensures y == Count <==> Occurs(CountMarker, rawQuery)
    ensures y == Ask <==> !Occurs(CountMarker, rawQuery) && Occurs(AskMarker, rawQuery)
    ensures y == Select <==> !Occurs(CountMarker, rawQuery) && !Occurs(AskMarker, rawQuery)
  {
    if Contains(rawQuery, CountMarker) then Count
    else if Contains(rawQuery, AskMarker) then Ask
    else Select
  }

  /** A knowledge-base URI; two URIs are the same value when their texts are equal. */
  datatype Uri = Uri(text: string)

  /**
   * The URIs kept by the comprehension over the query's URIs: every URI that
   * passes the test, as often as it occurs in the query.
   */
  function RelationUris(uris: seq<Uri>, isRelation: Uri -> bool): (r: seq<Uri>)
    ensures |r| <= |uris|
    ensures forall u :: u in r <==> u in uris && isRelation(u)
    ensures forall u :: multiset(r)[u] == (if isRelation(u) then multiset(uris)[u] else 0)
  {
    assert uris != [] ==> uris == [uris[0]] + uris[1..];
    if uris == [] then []
    else if isRelation(uris[0]) then [uris[0]] + RelationUris(uris[1..], isRelation)
    else RelationUris(uris[1..], isRelation)
  }

  /** `set(s)`: the values of a list. */
  function Elements(s: seq<Uri>): set<Uri> {
    set u | u in s
  }

  /** Reference meaning of a duplicate: the same value at two distinct positions. */
  ghost predicate HasRepeat(s: seq<Uri>) {
    exists i, j :: 0 <= i < j < |s| && s[i] == s[j]
  }

  /** Reference meaning of a double relation: one ontology/type URI at two distinct positions of the query. */
  ghost predicate RepeatedRelation(uris: seq<Uri>, isRelation: Uri -> bool) {
    exists i, j :: 0 <= i < j < |uris| && uris[i] == uris[j] && isRelation(uris[i])
  }

  /** The double-relation label: 1 when the filtered URI list is longer than its set, else 0. */
  function DoubleRelationLabel(uris: seq<Uri>, isRelation: Uri -> bool): (y: int)
    ensures y == 1 <==> HasRepeat(RelationUris(uris, isRelation))
    ensures y == 0 <==> !HasRepeat(RelationUris(uris, isRelation))
  {
    var relationUris := RelationUris(uris, isRelation);
    ElementsCardinality(relationUris);
    if |relationUris| != |Elements(relationUris)| then 1 else 0
  }

  lemma ElementsCons(s: seq<Uri>)
    requires s != []
    ensures Elements(s) == {s[0]} + Elements(s[1..])
  {
  }

  /** A list repeats a value when its head recurs in its tail or its tail repeats a value. */
  lemma ConsRepeat(s: seq<Uri>)
    requires s != []
    ensures HasRepeat(s) <==> s[0] in s[1..] || HasRepeat(s[1..])
  {
    var t := s[1..];
    if HasRepeat(s) && s[0] !in t {
      var i, j :| 0 <= i < j < |s| && s[i] == s[j];
      assert s[j] == t[j - 1];
      assert t[i - 1] == t[j - 1];
    }
    if s[0] in t {
      var k :| 0 <= k < |t| && t[k] == s[0];
      assert s[0] == s[k + 1];
    }
    if HasRepeat(t) {
      var i, j :| 0 <= i < j < |t| && t[i] == t[j];
      assert s[i + 1] == s[j + 1];
    }
  }

  /** The same split for a repeated relation URI of the query. */
  lemma RepeatedRelationCons(uris: seq<Uri>, isRelation: Uri -> bool)
    requires uris != []
    ensures RepeatedRelation(uris, isRelation) <==>
            (isRelation(uris[0]) && uris[0] in uris[1..]) || RepeatedRelation(uris[1..], isRelation)
  {
    var t := uris[1..];
    if RepeatedRelation(uris, isRelation) {
      var i, j :| 0 <= i < j < |uris| && uris[i] == uris[j] && isRelation(uris[i]);
      assert uris[j] == t[j - 1];
      if i > 0 {
        assert t[i - 1] == t[j - 1];
      }
    }
    if isRelation(uris[0]) && uris[0] in t {
      var k :| 0 <= k < |t| && t[k] == uris[0];
      assert uris[0] == uris[k + 1];
    }
    if RepeatedRelation(t, isRelation) {
      var i, j :| 0 <= i < j < |t| && t[i] == t[j] && isRelation(t[i]);
      assert uris[i + 1] == uris[j + 1];
    }
  }

  /** A list is as long as its set exactly when no value occurs in it twice. */
  lemma {:induction false} ElementsCardinality(s: seq<Uri>)
    ensures |Elements(s)| <= |s|
    ensures |Elements(s)| == |s| <==> !HasRepeat(s)
  {
    if s == [] {
      assert Elements(s) == {};
    } else {
      var t := s[1..];
      ElementsCardinality(t);
      ElementsCons(s);
      ConsRepeat(s);
      if s[0] in t {
        assert Elements(s) == Elements(t);
      } else {
        assert |Elements(s)| == |Elements(t)| + 1;
      }
    }
  }

  /** The filtered list repeats a value exactly when the query repeats an ontology/type URI. */
  lemma {:induction false} FilteredRepeat(uris: seq<Uri>, isRelation: Uri -> bool)
    ensures HasRepeat(RelationUris(uris, isRelation)) <==> RepeatedRelation(uris, isRelation)
  {
    if uris != [] {
      var t := uris[1..];
      FilteredRepeat(t, isRelation);
      RepeatedRelationCons(uris, isRelation);
      var r, rt := RelationUris(uris, isRelation), RelationUris(t, isRelation);
      if isRelation(uris[0]) {
        assert r == [uris[0]] + rt;
        assert r[1..] == rt;
        ConsRepeat(r);
      } else {
        assert r == rt;
      }
    }
  }

  /** The double-relation label is 1 exactly when some ontology/type URI occurs twice in the query, else 0. */
  lemma DoubleRelationLabelMeaning(uris: seq<Uri>, isRelation: Uri -> bool)
    ensures DoubleRelationLabel(uris, isRelation) == 1 <==> RepeatedRelation(uris, isRelation)
    ensures DoubleRelationLabel(uris, isRelation) == 0 <==> !RepeatedRelation(uris, isRelation)
  {
    FilteredRepeat(uris, isRelation);
  }

  /** With two distinct relation URIs `a` and `b`: `[a, b, a]` is labelled 1 and `[a, b]` is labelled 0. */
  lemma DoubleRelationExamples(a: Uri, b: Uri, isRelation: Uri -> bool)
    requires a != b && isRelation(a) && isRelation(b)
    ensures DoubleRelationLabel([a, b, a], isRelation) == 1
    ensures DoubleRelationLabel([a, b], isRelation) == 0
  {
    DoubleRelationLabelMeaning([a, b, a], isRelation);
    DoubleRelationLabelMeaning([a, b], isRelation);
    var s := [a, b, a];
    assert s[0] == s[2];
  }
}
