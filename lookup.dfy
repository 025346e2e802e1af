/**
 * The exercise lookup of app/src/exercisesDatabase.js: the list of names,
 * the five-tier fuzzy `searchExercise` and the capped
 * `getExerciseSuggestions`. The database is a parameter: a sequence of
 * entries with the two fields the lookup reads.
 */
module ExerciseLookup {
  import opened Wrappers
  import opened Seqs
  import opened Text

  datatype Entry = Entry(id: string, name: string)

  /** `EXERCISES_IT`: the names, in database order. */
  function Names(db: seq<Entry>): (r: seq<string>)
    ensures |r| == |db|
    ensures forall i :: 0 <= i < |db| ==> r[i] == db[i].name
  {
    seq(|db|, i requires 0 <= i < |db| => db[i].name)
  }

  /** The words `searchExercise` ignores. */
  const SearchStopWords: seq<string> := [
    "con", "il", "la", "di", "da", "in", "a", "per", "su", "e", "o", "alla", "al",
    "dello", "della", "dei", "degli"]

  /** The words `getExerciseSuggestions` ignores (a shorter list). */
  const SuggestionStopWords: seq<string> := [
    "con", "il", "la", "di", "da", "in", "a", "per", "su", "e", "o", "alla", "al"]

  function Keeps(stopWords: seq<string>, minLength: nat): string -> bool {
    (w: string) => w !in stopWords && |w| > minLength
  }

  function LongerThan(n: nat): string -> bool {
    (w: string) => |w| > n
  }

  /** The space-separated words of `text` that are not stop words and are
      longer than `minLength`. */
  function CleanWords(text: string, stopWords: seq<string>, minLength: nat): seq<string> {
    Filter(Split(text, ' '), Keeps(stopWords, minLength))
  }

  /** `split(' ').filter(...).join(' ')`. */
  function Clean(text: string, stopWords: seq<string>, minLength: nat): string {
    Join(CleanWords(text, stopWords, minLength), ' ')
  }

  /** `name.toLowerCase().trim()`. */
  function Normalize(name: string): string {
    Trim(Lower(name))
  }

  /** The keywords of tiers 3 to 5: the clean query split again, keeping the
      words longer than 2. */
  function Keywords(cleanQuery: string): seq<string> {
    Filter(Split(cleanQuery, ' '), LongerThan(2))
  }

  /** Tier 1: the lowercase name or the id is the query. */
  function ExactMatch(q: string): Entry -> bool {
    (e: Entry) => Lower(e.name) == q || e.id == q
  }

  /** Tier 2: the cleaned name and the cleaned query, one inside the other. */
  function PartialMatch(cleanQuery: string): Entry -> bool {
    (e: Entry) =>
      var cleanName := Clean(Lower(e.name), SearchStopWords, 2);
      Contains(cleanName, cleanQuery) || Contains(cleanQuery, cleanName)
  }

  /** Tier 3: there are keywords and the name contains each of them. */
  function AllKeywords(keywords: seq<string>): Entry -> bool {
    (e: Entry) => |keywords| > 0 && forall k :: k in keywords ==> Contains(Lower(e.name), k)
  }

  /** Tier 4: the name contains a keyword longer than 3. */
  function SomeKeyword(keywords: seq<string>): Entry -> bool {
    (e: Entry) => exists k :: k in keywords && |k| > 3 && Contains(Lower(e.name), k)
  }

  /** Tier 5: a word of the name starts with a keyword longer than 3. */
  function WordPrefix(keywords: seq<string>): Entry -> bool {
    (e: Entry) =>
      exists k :: k in keywords && |k| > 3 &&
        exists w :: w in Split(Lower(e.name), ' ') && StartsWith(w, k)
  }

  /** The five tests, in the order `searchExercise` tries them, for the
      normalized query `q`. */
  function Tiers(q: string): (r: seq<Entry -> bool>)
    ensures |r| == 5
  {
    var cleanQuery := Clean(q, SearchStopWords, 2);
    var keywords := Keywords(cleanQuery);
    [ExactMatch(q), PartialMatch(cleanQuery), AllKeywords(keywords), SomeKeyword(keywords),
     WordPrefix(keywords)]
  }

  /** `searchExercise`: nothing for an empty name; otherwise the first
      database entry passing the first tier that any entry passes, or
      nothing when no entry passes any tier. */
  function Search(db: seq<Entry>, name: string): (r: Option<Entry>)
    ensures name == "" ==> r.None?
    ensures r.Some? ==> r.value in db
    ensures name != "" ==>
      (r.None? <==> forall t, j :: 0 <= t < 5 && 0 <= j < |db| ==> !Tiers(Normalize(name))[t](db[j]))
  {
    if name == "" then None else FirstPassing(db, Tiers(Normalize(name)))
  }

  /** Tiers are tried in order: when no entry passes an earlier tier, the
      result is the first entry passing tier `t`. */
  lemma SearchDecidedBy(db: seq<Entry>, name: string, t: nat, j: nat)
    requires name != "" && t < 5 && j < |db| && Tiers(Normalize(name))[t](db[j])
    requires forall u, i :: 0 <= u < t && 0 <= i < |db| ==> !Tiers(Normalize(name))[u](db[i])
    requires forall i :: 0 <= i < j ==> !Tiers(Normalize(name))[t](db[i])
    ensures Search(db, name) == Some(db[j])
  {
    FirstPassingDecided(db, Tiers(Normalize(name)), t, j);
  }

  /** When some entry matches exactly, the first such entry is the result. */
  lemma SearchExact(db: seq<Entry>, name: string, j: nat)
    requires name != "" && j < |db| && ExactMatch(Normalize(name))(db[j])
    requires forall i :: 0 <= i < j ==> !ExactMatch(Normalize(name))(db[i])
    ensures Search(db, name) == Some(db[j])
  {
    SearchDecidedBy(db, name, 0, j);
  }

  /** Every clean word is longer than the minimum, not a stop word and free
      of spaces. */
  lemma CleanWordsShape(text: string, stopWords: seq<string>, minLength: nat)
    ensures forall i :: 0 <= i < |CleanWords(text, stopWords, minLength)| ==>
      var w := CleanWords(text, stopWords, minLength)[i];
      |w| > minLength && w !in stopWords && ' ' !in w
  {
    var ws := CleanWords(text, stopWords, minLength);
    forall i | 0 <= i < |ws| ensures |ws[i]| > minLength && ws[i] !in stopWords && ' ' !in ws[i] {
      assert Keeps(stopWords, minLength)(ws[i]);
      assert ws[i] in Split(text, ' ');
    }
  }

  /** The keywords of tiers 3 to 5 are exactly the query's clean words:
      splitting the joined words again gives them back, and none is too
      short to survive the second filter. */
  lemma KeywordsAreCleanWords(q: string)
    ensures Keywords(Clean(q, SearchStopWords, 2)) == CleanWords(q, SearchStopWords, 2)
  {
    var ws := CleanWords(q, SearchStopWords, 2);
    CleanWordsShape(q, SearchStopWords, 2);
    if ws == [] {
      NoKeywordsInEmpty();
    } else {
      SplitJoin(ws, ' ');
      FilterAll(ws, LongerThan(2));
    }
  }

  lemma NoKeywordsInEmpty()
    ensures Keywords([]) == []
  {
    assert Split([], ' ') == [[]];
    assert Filter([[]], LongerThan(2)) == [];
  }

  /** A query with no clean word and no exact match is decided by tier 2,
      which every entry passes: the result is the first entry. */
  lemma SearchWithoutCleanWords(db: seq<Entry>, name: string)
    requires name != "" && db != []
    requires Clean(Normalize(name), SearchStopWords, 2) == []
    requires forall j :: 0 <= j < |db| ==> !ExactMatch(Normalize(name))(db[j])
    ensures Search(db, name) == Some(db[0])
  {
    TiersWithoutCleanWords(db, Normalize(name));
  }

  lemma TiersWithoutCleanWords(db: seq<Entry>, q: string)
    requires db != [] && Clean(q, SearchStopWords, 2) == []
    requires forall j :: 0 <= j < |db| ==> !ExactMatch(q)(db[j])
    ensures FirstPassing(db, Tiers(q)) == Some(db[0])
  {
    NoFirstTier(db, q);
    EmptyQuerySecondTier(db[0], q);
    SecondTestDecides(db, Tiers(q));
  }

  lemma NoFirstTier(db: seq<Entry>, q: string)
    requires forall j :: 0 <= j < |db| ==> !ExactMatch(q)(db[j])
    ensures forall j :: 0 <= j < |db| ==> !Tiers(q)[0](db[j])
  {
    assert Tiers(q)[0] == ExactMatch(q);
  }

  lemma EmptyQuerySecondTier(e: Entry, q: string)
    requires Clean(q, SearchStopWords, 2) == []
    ensures Tiers(q)[1](e)
  {
    assert Tiers(q)[1] == PartialMatch([]);
    EmptyQueryPartialMatch(e);
  }

  /** Every cleaned name contains the empty cleaned query. */
  lemma EmptyQueryPartialMatch(e: Entry)
    ensures PartialMatch([])(e)
  {
    StartsWithContains(Clean(Lower(e.name), SearchStopWords, 2), []);
  }

  /** A word-prefix match is also a keyword match: the prefix occurs in the
      word, and the word in the name. */
  lemma WordPrefixImpliesKeyword(keywords: seq<string>, e: Entry)
    requires WordPrefix(keywords)(e)
    ensures SomeKeyword(keywords)(e)
  {
    var n := Lower(e.name);
    var k :| k in keywords && |k| > 3 && exists w :: w in Split(n, ' ') && StartsWith(w, k);
    var w :| w in Split(n, ' ') && StartsWith(w, k);
    var i :| 0 <= i < |Split(n, ' ')| && Split(n, ' ')[i] == w;
    SplitPiecesOccur(n, ' ', i);
    ContainsPrefix(n, w, k);
  }

  /** Tier 5 never decides a search: it is only consulted when no entry
      passed tier 4, and an entry passing it passes tier 4. */
  lemma FifthTierNeverDecides(db: seq<Entry>, name: string)
    requires name != ""
    ensures Search(db, name) == FirstPassing(db, Tiers(Normalize(name))[..4])
  {
    var tests := Tiers(Normalize(name));
    var keywords := Keywords(Clean(Normalize(name), SearchStopWords, 2));
    assert tests[3] == SomeKeyword(keywords) && tests[4] == WordPrefix(keywords);
    forall j | 0 <= j < |db| && tests[4](db[j]) ensures tests[3](db[j]) {
      WordPrefixImpliesKeyword(keywords, db[j]);
    }
    FirstPassingDropLast(db, tests);
  }

  /** Looking up an entry by its own name (when lowercasing leaves nothing
      to trim) finds that entry or an earlier one. */
  lemma SearchFindsListedName(db: seq<Entry>, j: nat)
    requires j < |db| && db[j].name != ""
    requires Trim(Lower(db[j].name)) == Lower(db[j].name)
    ensures Search(db, Names(db)[j]).Some?
    ensures exists i :: 0 <= i <= j && Search(db, Names(db)[j]) == Some(db[i])
  {
    var name := Names(db)[j];
    var p := ExactMatch(Normalize(name));
    assert p(db[j]);
    var i := FindFirst(db, p).value;
    SearchExact(db, name, i);
  }

  /** The ranking comparator of the suggestions: negative when `a` is to
      come before `b`. */
  function Compare(normalized: string, a: Entry, b: Entry): int {
    var an, bn := Lower(a.name), Lower(b.name);
    if StartsWith(an, normalized) then -1
    else if StartsWith(bn, normalized) then 1
    else if Contains(an, normalized) then -1
    else if Contains(bn, normalized) then 1
    else 0
  }

  /** The comparator is not an order: of two names that both start with
      the query, each is ranked before the other, so only the set of
      suggestions, not their order, is determined. */
  lemma CompareNotAntisymmetric(normalized: string, a: Entry, b: Entry)
    requires StartsWith(Lower(a.name), normalized) && StartsWith(Lower(b.name), normalized)
    ensures Compare(normalized, a, b) < 0 && Compare(normalized, b, a) < 0
  {
  }

  function RankBefore(normalized: string): (Entry, Entry) -> bool {
    (a: Entry, b: Entry) => Compare(normalized, a, b) < 0
  }

  /** The suggestion filter: the lowercase name contains the query, or the
      cleaned query, or one of its words longer than 2. */
  function Suggests(normalized: string, cleanQuery: string): Entry -> bool {
    (e: Entry) =>
      var n := Lower(e.name);
      || Contains(n, normalized)
      || Contains(n, cleanQuery)
      || exists w :: w in Split(cleanQuery, ' ') && |w| > 2 && Contains(n, w)
  }

  /** The entries the suggestions are drawn from, in database order. */
  function Matching(db: seq<Entry>, query: string): seq<Entry> {
    var normalized := Lower(query);
    Filter(db, Suggests(normalized, Clean(normalized, SuggestionStopWords, 1)))
  }

  /** `.slice(0, 10)`. */
  function Take10(s: seq<Entry>): (r: seq<Entry>)
    ensures |r| <= 10 && |r| <= |s| && r == s[..|r|]
    ensures |s| <= 10 ==> r == s
    ensures multiset(r) <= multiset(s)
  {
    if |s| <= 10 then s
    else
      assert s == s[..10] + s[10..];
      s[..10]
  }

  /** `getExerciseSuggestions`: nothing for a query shorter than 2;
      otherwise the matching entries, ranked, at most 10 of them. The
      ranking only reorders: with at most 10 matches every one of them is
      suggested, and with more the list is full. */
  function Suggestions(db: seq<Entry>, query: string): (r: seq<Entry>)
    ensures |query| < 2 ==> r == []
    ensures |r| <= 10
    ensures forall i :: 0 <= i < |r| ==> r[i] in db
    ensures |query| >= 2 ==>
      var normalized := Lower(query);
      forall i :: 0 <= i < |r| ==> Suggests(normalized, Clean(normalized, SuggestionStopWords, 1))(r[i])
    ensures |query| >= 2 ==> multiset(r) <= multiset(Matching(db, query))
    ensures |query| >= 2 && |Matching(db, query)| <= 10 ==> multiset(r) == multiset(Matching(db, query))
    ensures |query| >= 2 && |Matching(db, query)| > 10 ==> |r| == 10
  {
    if |query| < 2 then []
    else
      var ranked := InsertionSort(Matching(db, query), RankBefore(Lower(query)));
      var r := Take10(ranked);
      forall i | 0 <= i < |r| ensures r[i] in Matching(db, query) {
        assert r[i] in multiset(ranked);
      }
      r
  }

  /** An entry whose lowercase name contains the lowercase query is
      suggested whenever there are at most 10 matches. */
  lemma SuggestsContainingName(db: seq<Entry>, query: string, j: nat)
    requires |query| >= 2 && j < |db| && Contains(Lower(db[j].name), Lower(query))
    requires |Matching(db, query)| <= 10
    ensures db[j] in Suggestions(db, query)
  {
    var normalized := Lower(query);
    assert Suggests(normalized, Clean(normalized, SuggestionStopWords, 1))(db[j]);
    assert db[j] in Matching(db, query);
    assert db[j] in multiset(Suggestions(db, query));
  }
}
