/** The case-insensitive search shared by the subject and note lists: the query is the trimmed,
    lower-cased search text, and a text matches when its lower-cased form includes the query. */
module Search {

  import opened Strings

  /** `search.trim().toLowerCase()`: empty exactly for a blank search, and free of upper-case
      letters. */
  function Query(search: string): (q: string)
    ensures q == "" <==> AllSpace(search)
    ensures |q| <= |search|
    ensures forall k :: 0 <= k < |q| ==> !('A' <= q[k] <= 'Z')
  {
    LowerIdempotent(Trim(search));
    Lower(Trim(search))
  }

  /** `text.toLowerCase().includes(query)`. */
  predicate Matches(text: string, query: string)
  {
    Includes(Lower(text), query)
  }

  /** Lower-casing keeps a character's being white space. */
  lemma LowerCharSpace(c: char)
    ensures IsSpace(LowerChar(c)) <==> IsSpace(c)
  {
  }

  /** A query is already a query: turning it into one again changes nothing. */
  lemma QueryIdempotent(search: string)
    ensures Query(Query(search)) == Query(search)
  {
    var t := Trim(search);
    var q := Lower(t);
    if q != [] {
      LowerCharSpace(t[0]);
      LowerCharSpace(t[|t| - 1]);
    }
    TrimUnspaced(q);
    LowerIdempotent(t);
  }

  /** The query occurs in `text` at index `k`, ignoring the case of the text. */
  predicate OccursAt(text: string, query: string, k: nat)
  {
    k + |query| <= |text| && Lower(text[k..k + |query|]) == query
  }

  /** A match is an occurrence of the query, ignoring the case of the searched text. */
  lemma MatchesIff(text: string, query: string)
    ensures Matches(text, query) <==>
      exists k: nat :: OccursAt(text, query, k)
  {
    var low := Lower(text);
    if Matches(text, query) {
      var k := IncludesWitness(low, query);
      assert low[k..k + |query|] == Lower(text[k..k + |query|]);
      assert OccursAt(text, query, k);
    }
    if exists k: nat :: OccursAt(text, query, k) {
      var k: nat :| OccursAt(text, query, k);
      assert low[k..k + |query|] == Lower(text[k..k + |query|]);
      IncludesAt(low, query, k);
    }
  }

  /** The empty query matches every text. */
  lemma MatchesEmpty(text: string)
    ensures Matches(text, "")
  {
    IncludesEmpty(Lower(text));
  }
}
