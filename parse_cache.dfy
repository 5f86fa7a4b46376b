/**
 * The dependency-parse cache: question text to the first token line and the
 * first parent line the dependency parser produced for it. A lookup that hits
 * reuses the entry; one that misses runs the parser once and stores its output.
 */
module ParseCache {
  import opened Wrappers

  /** The two stored lines of one parse: tokens and dependency parents. */
  datatype ParseEntry = ParseEntry(tokens: string, parents: string)

  type Cache = map<string, ParseEntry>

  /** The dependency parser, seen from outside: a parse of the question, or None when it fails. */
  type Parser = string -> Option<ParseEntry>

  /** What one acquisition leaves behind: the new cache, the entry used, and whether the parser ran. */
  datatype Acquired = Acquired(cache: Cache, entry: Option<ParseEntry>, parsed: bool)

  /** Obtaining the parse of `question`: reuse the cached entry, else parse once and store the result. */
  function Acquire(cache: Cache, question: string, parser: Parser): (a: Acquired)
    ensures question in cache ==> a == Acquired(cache, Some(cache[question]), false)
    ensures question !in cache ==> a.parsed && a.entry == parser(question)
    ensures a.entry.Some? ==> question in a.cache && a.cache[question] == a.entry.value
    ensures a.entry.None? ==> a.cache == cache
    ensures a.cache.Keys == cache.Keys + (if a.entry.Some? then {question} else {})
    ensures forall q :: q in cache ==> q in a.cache && a.cache[q] == cache[q]
  {
    if question in cache then
      Acquired(cache, Some(cache[question]), false)
    else
      match parser(question)
      case Some(entry) => Acquired(cache[question := entry], Some(entry), true)
      case None => Acquired(cache, None, true)
  }

  /** A scratch file of `n` copies of `line`, one per candidate query. */
  function Repeat(line: string, n: nat): (lines: seq<string>)
  {
    seq(n, _ => line)
  }

  /** The scratch token and parent files, written line by line, one line per candidate. */
  method WriteParseLines(entry: ParseEntry, n: nat) returns (tokenLines: seq<string>, parentLines: seq<string>)
    ensures |tokenLines| == |parentLines| == n
    ensures forall i :: 0 <= i < n ==> tokenLines[i] == entry.tokens && parentLines[i] == entry.parents
    ensures tokenLines == Repeat(entry.tokens, n) && parentLines == Repeat(entry.parents, n)
  {
    tokenLines, parentLines := [], [];
    for i := 0 to n
      invariant tokenLines == Repeat(entry.tokens, i)
      invariant parentLines == Repeat(entry.parents, i)
    {
      tokenLines := tokenLines + [entry.tokens];
      parentLines := parentLines + [entry.parents];
    }
  }

  /**
   * Acquiring the same question twice: once a parse is stored, the second
   * acquisition is a hit that leaves the cache alone, does not parse, and
   * yields the same entry.
   */
  lemma AcquireTwice(cache: Cache, question: string, parser: Parser)
    ensures var first := Acquire(cache, question, parser);
            var second := Acquire(first.cache, question, parser);
            first.entry.Some? ==> second == Acquired(first.cache, first.entry, false)
  {
  }

  /** The cache and the number of parser runs after acquiring `questions` in order. */
  function AcquireAll(cache: Cache, questions: seq<string>, parser: Parser): (Cache, nat)
    decreases |questions|
  {
    if questions == [] then (cache, 0)
    else
      var a := Acquire(cache, questions[0], parser);
      var (final, runs) := AcquireAll(a.cache, questions[1..], parser);
      (final, runs + if a.parsed then 1 else 0)
  }

  /** The questions of `questions` that are not yet cached. */
  function Uncached(cache: Cache, questions: seq<string>): set<string> {
    set q | q in questions && q !in cache
  }

  /**
   * With a parser that succeeds, acquiring any sequence of questions runs the
   * parser exactly once per distinct question that was not cached, however
   * often each is asked.
   */
  lemma {:induction false} ParsesOncePerQuestion(cache: Cache, questions: seq<string>, parser: Parser)
    requires forall q :: q in questions ==> parser(q).Some?
    ensures AcquireAll(cache, questions, parser).1 == |Uncached(cache, questions)|
    decreases |questions|
  {
    if questions == [] {
      assert Uncached(cache, questions) == {};
    } else {
      var q0, rest := questions[0], questions[1..];
      var a := Acquire(cache, q0, parser);
      assert forall q :: q in rest ==> q in questions;
      ParsesOncePerQuestion(a.cache, rest, parser);
      assert AcquireAll(cache, questions, parser).1 ==
             AcquireAll(a.cache, rest, parser).1 + (if a.parsed then 1 else 0);
      if q0 in cache {
        UncachedAfterHit(cache, questions);
      } else {
        UncachedAfterMiss(cache, questions, a.cache);
      }
    }
  }

  lemma UncachedAfterHit(cache: Cache, questions: seq<string>)
    requires questions != [] && questions[0] in cache
    ensures Uncached(cache, questions) == Uncached(cache, questions[1..])
  {
  }

  lemma UncachedAfterMiss(cache: Cache, questions: seq<string>, after: Cache)
    requires questions != [] && questions[0] !in cache
    requires after.Keys == cache.Keys + {questions[0]}
    ensures |Uncached(cache, questions)| == |Uncached(after, questions[1..])| + 1
  {
    var q0 := questions[0];
    assert forall q :: q in questions <==> q == q0 || q in questions[1..];
    assert Uncached(cache, questions) == {q0} + Uncached(after, questions[1..]);
    assert q0 !in Uncached(after, questions[1..]);
  }
}
