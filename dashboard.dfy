/** The dashboard's pure helpers: the subject search and the avatar initials. */
module Dashboard {

  import opened Wrappers
  import opened Strings
  import opened Sequences
  import opened Search
  import opened Api

  /** A subject matches a query when its title does. */
  predicate SubjectMatches(query: string, s: Subject)
  {
    Matches(s.title, query)
  }

  /** `filteredSubjects`: every subject for a blank search; otherwise the subjects whose title
      includes the query, in their order, each as often as it occurs. */
  function FilteredSubjects(subjects: seq<Subject>, search: string): (r: seq<Subject>)
    ensures AllSpace(search) ==> r == subjects
    ensures IsSubsequence(r, subjects)
    ensures !AllSpace(search) ==> forall k :: 0 <= k < |r| ==> Matches(r[k].title, Query(search))
    ensures forall k :: 0 <= k < |subjects| && Matches(subjects[k].title, Query(search)) ==> subjects[k] in r
    ensures !AllSpace(search) ==>
      forall x :: multiset(r)[x] == if Matches(x.title, Query(search)) then multiset(subjects)[x] else 0
  {
    var query := Query(search);
    if query == "" then
      assert forall k :: 0 <= k < |subjects| ==> subjects[k] in subjects;
      SubsequenceOfItself(subjects);
      subjects
    else
      FilterCounts(subjects, s => SubjectMatches(query, s));
      Filter(subjects, s => SubjectMatches(query, s))
  }

  /** Searching the result again with the same text changes nothing. */
  lemma FilteredSubjectsIdempotent(subjects: seq<Subject>, search: string)
    ensures FilteredSubjects(FilteredSubjects(subjects, search), search) == FilteredSubjects(subjects, search)
  {
    var query := Query(search);
    if query != "" {
      FilterKeepsAll(FilteredSubjects(subjects, search), s => SubjectMatches(query, s));
    }
  }

  /** Searching with a query gives the subjects the query itself selects: the search text is
      used only through its trimmed, lower-cased form. */
  lemma FilteredSubjectsByQuery(subjects: seq<Subject>, search: string)
    ensures FilteredSubjects(subjects, Query(search)) == FilteredSubjects(subjects, search)
  {
    QueryIdempotent(search);
  }

  /** The upper-cased first character of every space-separated word of `s`, in order; `atStart`
      says whether `s` begins a word (at the start of the name or after a space). */
  function WordStarts(s: string, atStart: bool): (r: string)
    ensures forall k :: 0 <= k < |r| ==> r[k] != ' ' && !('a' <= r[k] <= 'z')
    decreases |s|
  {
    if |s| == 0 then ""
    else (if atStart && s[0] != ' ' then [UpperChar(s[0])] else "") + WordStarts(s[1..], s[0] == ' ')
  }

  /** `parts.map(p => p[0]?.toUpperCase()).join("")`: an empty part contributes nothing. */
  function FirstLetters(parts: seq<string>): string
  {
    if |parts| == 0 then ""
    else (if parts[0] == "" then "" else [UpperChar(parts[0][0])]) + FirstLetters(parts[1..])
  }

  /** The first letters of the words of `s` are its word starts; the pieces after the first are
      the word starts of `s` read as the continuation of a word. */
  lemma {:induction false} FirstLettersOfSplit(s: string)
    ensures FirstLetters(Split(s, ' ')) == WordStarts(s, true)
    ensures FirstLetters(Split(s, ' ')[1..]) == WordStarts(s, false)
  {
    if |s| > 0 {
      var rest := Split(s[1..], ' ');
      FirstLettersOfSplit(s[1..]);
      if s[0] == ' ' {
        assert Split(s, ' ') == [""] + rest;
        assert ([""] + rest)[1..] == rest;
      } else {
        var parts := [[s[0]] + rest[0]] + rest[1..];
        assert Split(s, ' ') == parts;
        assert parts[1..] == rest[1..];
      }
    }
  }

  /** `slice(0, 2)`. */
  function Take2(s: string): (r: string)
    ensures |r| <= 2 && |r| <= |s| && r == s[..|r|]
    ensures |s| >= 2 ==> |r| == 2
  {
    if |s| <= 2 then s else s[..2]
  }

  /** `initials`: "U" without a user; otherwise the first two word starts of the user's name. */
  function Initials(name: Option<string>): (r: string)
    ensures name.None? ==> r == "U"
    ensures |r| <= 2
    ensures name.Some? ==> r == Take2(WordStarts(name.value, true))
  {
    if name.None? then "U"
    else
      FirstLettersOfSplit(name.value);
      Take2(FirstLetters(Split(name.value, ' ')))
  }

  /** With a user the initials are upper-case word starts, never spaces. */
  lemma InitialsAreLetters(name: string)
    ensures forall k :: 0 <= k < |Initials(Some(name))| ==>
      Initials(Some(name))[k] != ' ' && !('a' <= Initials(Some(name))[k] <= 'z')
  {
    var w := WordStarts(name, true);
    assert Initials(Some(name)) == w[..|Initials(Some(name))|];
  }
}
