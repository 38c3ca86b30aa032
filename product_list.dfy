/**
 * The list page: the title prefix search and the choice of what
 * `renderProductCard` shows, both as functions of the page state
 * (loading flag, the shared content list, whether the first render is
 * over, the filtered list and the search word).
 */
module ProductList {
  import opened Text
  import opened ContentModel

  /** `contents.filter(row => row.title.startsWith(word))`. */
  function FilterByTitle(contents: seq<Content>, word: string): (r: seq<Content>)
    ensures |r| <= |contents|
    ensures forall c :: c in r ==> c in contents && StartsWith(c.title, word)
  {
    if contents == [] then []
    else
      var rest := FilterByTitle(contents[1..], word);
      if StartsWith(contents[0].title, word) then [contents[0]] + rest else rest
  }

  /** The filter keeps exactly the contents whose title starts with the
      search word. */
  lemma {:induction false} FilterMembersIff(contents: seq<Content>, word: string, c: Content)
    ensures c in FilterByTitle(contents, word) <==> c in contents && StartsWith(c.title, word)
  {
    if contents != [] {
      FilterMembersIff(contents[1..], word, c);
      assert contents == [contents[0]] + contents[1..];
    }
  }

  /** The filter keeps the original order: filtering a concatenation
      filters each part. */
  lemma {:induction false} FilterConcat(a: seq<Content>, b: seq<Content>, word: string)
    ensures FilterByTitle(a + b, word) == FilterByTitle(a, word) + FilterByTitle(b, word)
  {
    if a == [] {
      assert a + b == b;
    } else {
      assert (a + b)[1..] == a[1..] + b;
      FilterConcat(a[1..], b, word);
    }
  }

  /** Every title starts with the empty word, so an empty search keeps the
      whole list. */
  lemma {:induction false} FilterEmptyWordKeepsAll(contents: seq<Content>)
    ensures FilterByTitle(contents, "") == contents
  {
    if contents != [] {
      FilterEmptyWordKeepsAll(contents[1..]);
      assert StartsWith(contents[0].title, "");
    }
  }

  /** Searching the search result again with the same word changes nothing. */
  lemma {:induction false} FilterIdempotent(contents: seq<Content>, word: string)
    ensures FilterByTitle(FilterByTitle(contents, word), word) == FilterByTitle(contents, word)
  {
    if contents != [] {
      FilterIdempotent(contents[1..], word);
    }
  }

  /** What the list area shows: the loading text, the "not registered"
      text, the zero-hits text, or a list of content cards. */
  datatype Display = Loading | NotRegistered | ZeroHits | Cards(items: seq<Content>)

  /** `renderProductCard`. */
  function RenderProductCard(isLoading: bool, contents: seq<Content>, isMounted: bool,
                             filtered: seq<Content>, searchWord: string): (d: Display)
    ensures isLoading ==> d == Loading
    ensures !isLoading && contents == [] ==> d == NotRegistered
    ensures d.Cards? ==> d.items == contents || d.items == filtered
  {
    if isLoading then Loading
    else if |contents| == 0 then NotRegistered
    else if !isMounted then Cards(contents)
    else if |filtered| == 0 then
      if |searchWord| == 0 then Cards(contents) else ZeroHits
    else Cards(filtered)
  }

  /** The four cases after the first render, for a non-empty list that is
      not loading: a non-empty filtered list is shown as it is; an empty
      one shows the whole list when there is no search word and the
      zero-hits text when there is one. */
  lemma RenderCases(contents: seq<Content>, filtered: seq<Content>, searchWord: string)
    requires contents != []
    ensures filtered != [] ==> RenderProductCard(false, contents, true, filtered, searchWord) == Cards(filtered)
    ensures filtered == [] && searchWord == [] ==>
      RenderProductCard(false, contents, true, filtered, searchWord) == Cards(contents)
    ensures filtered == [] && searchWord != [] ==>
      RenderProductCard(false, contents, true, filtered, searchWord) == ZeroHits
    ensures RenderProductCard(false, contents, false, filtered, searchWord) == Cards(contents)
  {
  }

  /** With the filtered list as the search effect stores it, a page that is
      neither loading nor empty shows exactly the contents whose title
      starts with the search word, in list order, or the zero-hits text
      when none does; it never shows a card that does not match. The
      effect re-filters only when the search word changes, so the lemma
      takes the filter of the current list: it assumes the contents have
      not changed since the word last changed. */
  lemma SearchShowsMatches(contents: seq<Content>, searchWord: string)
    requires contents != []
    ensures var d := RenderProductCard(false, contents, true, FilterByTitle(contents, searchWord), searchWord);
      && (d == ZeroHits <==> forall c :: c in contents ==> !StartsWith(c.title, searchWord))
      && (d != ZeroHits ==> d == Cards(FilterByTitle(contents, searchWord)))
  {
    var filtered := FilterByTitle(contents, searchWord);
    if searchWord == [] {
      FilterEmptyWordKeepsAll(contents);
      assert StartsWith(contents[0].title, searchWord);
    } else if filtered == [] {
      forall c | c in contents
        ensures !StartsWith(c.title, searchWord)
      {
        FilterMembersIff(contents, searchWord, c);
      }
    } else {
      var c := filtered[0];
      FilterMembersIff(contents, searchWord, c);
    }
  }
}
