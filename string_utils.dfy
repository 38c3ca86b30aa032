/**
 * `sanitizeSpecialChars`: replaces each of 30 half-width ASCII punctuation
 * characters by a fixed full-width counterpart, copying every other code
 * point unchanged.
 */
module StringUtils {

  /** The half-width symbols (hanSymbols), in table order. */
  const Han: seq<char> := [
    '!', '#', '$', '%', '^', '&', '*', '(', ')', '_',
    '+', '=', '{', '}', '[', ']', ':', ';', '"', '\'',
    '<', '>', ',', '.', '?', '/', '\\', '|', '`', '~'
  ]

  /** The full-width counterparts (zenSymbols), parallel to Han. All come
      from the Halfwidth and Fullwidth Forms block except the two quotes:
      '"' maps to U+201C and '\'' to U+2019. */
  const Zen: seq<char> := [
    '！', '＃', '＄', '％', '＾', '＆', '＊', '（', '）', '＿',
    '＋', '＝', '｛', '｝', '［', '］', '：', '；', '\U{201C}', '\U{2019}',
    '＜', '＞', '，', '．', '？', '／', '＼', '｜', '｀', '～'
  ]
  /** The two tables are parallel, and no half-width symbol is listed
      twice, so the first match of `indexOf` is the only match. */
  lemma HanDistinct()
    ensures |Han| == |Zen| == 30
    ensures forall i, j :: 0 <= i < j < |Han| ==> Han[i] != Han[j]
  {
  }

  /** Every half-width symbol is ASCII; every full-width one lies at or
      above U+2000. */
  lemma TableRanges()
    ensures forall i :: 0 <= i < |Han| ==> Han[i] < '\U{80}'
    ensures forall i :: 0 <= i < |Zen| ==> Zen[i] >= '\U{2000}'
  {
  }

  /** No full-width entry is itself a half-width symbol. */
  lemma ZenNotInHan()
    ensures forall i :: 0 <= i < |Zen| ==> Zen[i] !in Han
  {
    TableRanges();
  }

  /** The linear search of `Array.prototype.indexOf` from position `i`:
      the position of a match, or -1. */
  function IndexFrom(table: seq<char>, c: char, i: nat): (k: int)
    requires i <= |table|
    decreases |table| - i
    ensures k == -1 || (i <= k < |table| && table[k] == c)
  {
    if i == |table| then -1
    else if table[i] == c then i
    else IndexFrom(table, c, i + 1)
  }

  /** The match found is the first one, and -1 means there is none. */
  lemma {:induction false} IndexFromFirst(table: seq<char>, c: char, i: nat)
    requires i <= |table|
    ensures IndexFrom(table, c, i) == -1 <==> forall j :: i <= j < |table| ==> table[j] != c
    ensures forall j :: i <= j < IndexFrom(table, c, i) ==> table[j] != c
    decreases |table| - i
  {
    if i < |table| && table[i] != c {
      IndexFromFirst(table, c, i + 1);
    }
  }

  /** `table.indexOf(c)`. */
  function IndexOf(table: seq<char>, c: char): (k: int)
    ensures -1 <= k < |table|
    ensures k != -1 ==> table[k] == c
  {
    IndexFrom(table, c, 0)
  }

  /** `indexOf` returns -1 exactly for an absent code point, and otherwise
      the position of its first occurrence. */
  lemma IndexOfSpec(table: seq<char>, c: char)
    ensures IndexOf(table, c) == -1 <==> c !in table
    ensures IndexOf(table, c) != -1 ==> c !in table[..IndexOf(table, c)]
  {
    IndexFromFirst(table, c, 0);
    var k := IndexOf(table, c);
    if k != -1 {
      assert forall j :: 0 <= j < k ==> table[..k][j] == table[j];
    }
  }

  /** The replacement of one code point, written out as a table: each
      half-width symbol maps to its full-width counterpart, and any other
      code point to itself. */
  function Convert(c: char): (r: char)
    ensures r == c || (c < '\U{80}' && '\U{2000}' <= r)
  {
    match c
    case '!' => '！'
    case '#' => '＃'
    case '$' => '＄'
    case '%' => '％'
    case '^' => '＾'
    case '&' => '＆'
    case '*' => '＊'
    case '(' => '（'
    case ')' => '）'
    case '_' => '＿'
    case '+' => '＋'
    case '=' => '＝'
    case '{' => '｛'
    case '}' => '｝'
    case '[' => '［'
    case ']' => '］'
    case ':' => '：'
    case ';' => '；'
    case '"' => '\U{201C}'
    case '\'' => '\U{2019}'
    case '<' => '＜'
    case '>' => '＞'
    case ',' => '，'
    case '.' => '．'
    case '?' => '？'
    case '/' => '／'
    case '\\' => '＼'
    case '|' => '｜'
    case '`' => '｀'
    case '~' => '～'
    case _ => c
  }

  /** The table agrees with the two arrays: the k-th half-width symbol
      becomes the k-th full-width one. */
  lemma ConvertSymbol(k: nat)
    requires k < |Han|
    ensures Convert(Han[k]) == Zen[k]
  {
  }

  /** Any other code point is kept. */
  lemma ConvertOther(c: char)
    requires c !in Han
    ensures Convert(c) == c
  {
  }

  /** No converted code point is a half-width symbol. */
  lemma ConvertNotSymbol(c: char)
    ensures Convert(c) !in Han
  {
    TableRanges();
    if c in Han {
      var k :| 0 <= k < |Han| && Han[k] == c;
      ConvertSymbol(k);
    } else {
      ConvertOther(c);
    }
  }

  /** What the source's loop computes for one code point, the
      counterpart at the position `indexOf` finds, is the table's
      replacement. */
  lemma ConvertByIndex(c: char)
    ensures Convert(c) == (if IndexOf(Han, c) != -1 then Zen[IndexOf(Han, c)] else c)
  {
    var k := IndexOf(Han, c);
    if k != -1 {
      ConvertSymbol(k);
    } else {
      IndexOfSpec(Han, c);
      ConvertOther(c);
    }
  }

  /** The specification of the sanitiser: the conversion applied to every
      code point, building the result from left to right. */
  ghost function Sanitized(s: string): string
  {
    if s == [] then [] else Sanitized(s[..|s| - 1]) + [Convert(s[|s| - 1])]
  }

  /** `sanitizeSpecialChars`: scans the input one code point at a time,
      looks it up in the half-width table with `indexOf`, and appends the
      full-width counterpart or the code point itself. */
  method SanitizeSpecialChars(input: string) returns (result: string)
    ensures result == Sanitized(input)
    ensures |result| == |input|
    ensures forall i :: 0 <= i < |input| ==> result[i] == Convert(input[i])
  {
    result := "";
    for i := 0 to |input|
      invariant result == Sanitized(input[..i])
    {
      var c := input[i];
      var index := IndexOf(Han, c);
      ConvertByIndex(c);
      if index != -1 {
        result := result + [Zen[index]];
      } else {
        result := result + [c];
      }
      assert input[..i + 1][..i] == input[..i];
    }
    assert input[..|input|] == input;
    SanitizedAt(input);
  }

  /** Each code point is replaced by exactly one code point, in place. */
  lemma {:induction false} SanitizedAt(s: string)
    ensures |Sanitized(s)| == |s|
    ensures forall i :: 0 <= i < |s| ==> Sanitized(s)[i] == Convert(s[i])
  {
    if s != [] {
      SanitizedAt(s[..|s| - 1]);
    }
  }

  /** The sanitiser is determined by its position-wise rule. */
  lemma SanitizedUnique(s: string, r: string)
    requires |r| == |s|
    requires forall i :: 0 <= i < |s| ==> r[i] == Convert(s[i])
    ensures r == Sanitized(s)
  {
    SanitizedAt(s);
  }

  /** The empty string is left empty. */
  lemma SanitizedEmpty()
    ensures Sanitized("") == ""
  {
  }

  /** A string with none of the 30 half-width symbols is returned unchanged. */
  lemma SanitizedNoSymbols(s: string)
    requires forall i :: 0 <= i < |s| ==> s[i] !in Han
    ensures Sanitized(s) == s
  {
    forall i | 0 <= i < |s|
      ensures Convert(s[i]) == s[i]
    {
      ConvertOther(s[i]);
    }
    SanitizedUnique(s, s);
  }

  /** No code point of a sanitized string is a half-width symbol. */
  lemma SanitizedHasNoSymbol(s: string)
    ensures |Sanitized(s)| == |s|
    ensures forall i :: 0 <= i < |s| ==> Sanitized(s)[i] !in Han
  {
    SanitizedAt(s);
    forall i | 0 <= i < |s|
      ensures Sanitized(s)[i] !in Han
    {
      ConvertNotSymbol(s[i]);
    }
  }

  /** Sanitising twice is sanitising once: no output code point is a
      half-width symbol, so a second pass changes nothing. */
  lemma SanitizedIdempotent(s: string)
    ensures Sanitized(Sanitized(s)) == Sanitized(s)
  {
    SanitizedHasNoSymbol(s);
    SanitizedNoSymbols(Sanitized(s));
  }

  /** Sanitising distributes over concatenation: characters are never
      reordered, merged or split across a boundary. */
  lemma SanitizedConcat(a: string, b: string)
    ensures Sanitized(a + b) == Sanitized(a) + Sanitized(b)
  {
    SanitizedAt(a);
    SanitizedAt(b);
    SanitizedUnique(a + b, Sanitized(a) + Sanitized(b));
  }

  /** Fixture: "あ0.日!Dy" becomes "あ0．日！Dy". */
  lemma SanitizedMixedFixture(s: string, r: string)
    requires s == "あ0.日!Dy" && r == "あ0．日！Dy"
    ensures Sanitized(s) == r
  {
    assert Convert(s[0]) == r[0] && Convert(s[1]) == r[1] && Convert(s[2]) == r[2];
    assert Convert(s[3]) == r[3] && Convert(s[4]) == r[4] && Convert(s[5]) == r[5];
    assert Convert(s[6]) == r[6];
    SanitizedUnique(s, r);
  }

  /** Fixture: a string of kana, a half-width katakana, a digit, kanji and
      Latin letters has no symbol and is left as it is. */
  lemma SanitizedPlainFixture(s: string)
    requires s == "あｲ0ジュ日Dy"
    ensures Sanitized(s) == s
  {
    SanitizedNoSymbols(s);
  }

  /** Fixture: the 30 half-width symbols in table order become the 30
      full-width symbols in the same order, and the full-width string is
      left as it is. */
  lemma SanitizedAllSymbolsFixture(half: string, full: string)
    requires half == "!#$%^&*()_+={}[]:;\"'<>,.?/\\|`~"
    requires full == "！＃＄％＾＆＊（）＿＋＝｛｝［］：；“’＜＞，．？／＼｜｀～"
    ensures Sanitized(half) == full
    ensures Sanitized(full) == full
  {
    assert half == Han;
    assert full == Zen;
    forall k | 0 <= k < |Han|
      ensures Convert(Han[k]) == Zen[k]
    {
      ConvertSymbol(k);
    }
    SanitizedUnique(Han, Zen);
    ZenNotInHan();
    SanitizedNoSymbols(Zen);
  }
}
