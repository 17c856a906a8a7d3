/**
 Which names mark an omnibus: the test on a string, and the SQL pattern that asks the same of
 the database.
*/
module Omnibus {
  import opened Wrappers
  import opened Ascii

  const OMNIBUS_KEYWORD := "omnibus"

  // ---------------------------------------------------------------------- the two tests

  predicate Contains(s: string, word: string) {
    exists i :: 0 <= i <= |s| - |word| && IsAt(s, word, i)
  }

  predicate IsAt(s: string, word: string, i: nat)
    requires i + |word| <= |s|
  {
    s[i..i + |word|] == word
  }

  predicate MatchesOmnibusName(value: string) {
    Contains(Lower(value), OMNIBUS_KEYWORD)
  }

  function OmnibusLikePattern(): string {
    "%" + OMNIBUS_KEYWORD + "%"
  }

  /** `LIKE`: `%` is any run of characters, `_` any one character, and letters match without
      regard to ASCII case. */
  predicate Like(s: string, pattern: string)
    decreases |pattern|, |s|
  {
    if pattern == [] then s == []
    else if pattern[0] == '%' then Like(s, pattern[1..]) || (s != [] && Like(s[1..], pattern))
    else s != [] && (pattern[0] == '_' || LowerChar(pattern[0]) == LowerChar(s[0])) && Like(s[1..], pattern[1..])
  }

  /** The word has no wildcard in it. */
  ghost predicate Plain(word: string) {
    '%' !in word && '_' !in word
  }

  lemma {:induction false} PercentTakesAll(s: string)
    ensures Like(s, "%")
  {
    if s != [] {
      PercentTakesAll(s[1..]);
    } else {
      assert Like(s, "%"[1..]);
    }
  }

  /** A word and then anything: the string starts with the word. */
  lemma {:induction false} LikePrefix(s: string, word: string)
    requires Plain(word)
    ensures Like(s, word + "%") <==> |word| <= |s| && Lower(s)[..|word|] == Lower(word)
  {
    var pattern := word + "%";
    if word == [] {
      assert pattern == "%";
      PercentTakesAll(s);
      assert Lower(s)[..0] == [] == Lower(word);
    } else {
      assert pattern[0] == word[0] && pattern[1..] == word[1..] + "%";
      if s != [] {
        LikePrefix(s[1..], word[1..]);
        if |word| <= |s| {
          SamePrefix(s, word);
        }
      }
    }
  }

  lemma SamePrefix(s: string, word: string)
    requires 0 < |word| <= |s|
    ensures Lower(s)[..|word|] == Lower(word) <==>
      LowerChar(word[0]) == LowerChar(s[0]) && Lower(s[1..])[..|word| - 1] == Lower(word[1..])
  {
    var (a, b) := (Lower(s)[..|word|], Lower(word));
    assert a[0] == LowerChar(s[0]) && b[0] == LowerChar(word[0]);
    assert a[1..] == Lower(s[1..])[..|word| - 1];
    assert b[1..] == Lower(word[1..]);
    assert a == [a[0]] + a[1..] && b == [b[0]] + b[1..];
  }

  /** Anything, the word, and anything: the word is somewhere in the string. */
  lemma {:induction false} LikeAnywhere(s: string, word: string)
    requires Plain(word)
    ensures Like(s, "%" + word + "%") <==> Contains(Lower(s), Lower(word))
  {
    var pattern := "%" + word + "%";
    assert pattern[1..] == word + "%";
    LikePrefix(s, word);
    if |word| <= |s| && Lower(s)[..|word|] == Lower(word) {
      assert IsAt(Lower(s), Lower(word), 0);
      assert Contains(Lower(s), Lower(word));
    }
    if s != [] {
      LikeAnywhere(s[1..], word);
      ContainsLater(s, word);
    }
  }

  lemma SameSlice(a: string, i: nat, n: nat)
    requires 0 < i && i + n <= |a|
    ensures a[i..i + n] == a[1..][i - 1..i - 1 + n]
  {
    var (x, y) := (a[i..i + n], a[1..][i - 1..i - 1 + n]);
    forall k | 0 <= k < n ensures x[k] == y[k] {
      assert x[k] == a[i + k];
    }
  }

  lemma ContainsLater(s: string, word: string)
    requires s != []
    ensures Contains(Lower(s), Lower(word)) <==>
      (|word| <= |s| && Lower(s)[..|word|] == Lower(word)) || Contains(Lower(s[1..]), Lower(word))
  {
    var (a, b, w) := (Lower(s), Lower(s[1..]), Lower(word));
    assert a[1..] == b;
    forall i | 0 < i <= |a| - |w| ensures IsAt(a, w, i) <==> IsAt(b, w, i - 1) {
      SameSlice(a, i, |w|);
    }
    if |w| <= |a| && a[..|w|] == w {
      assert IsAt(a, w, 0);
    }
    if Contains(b, w) {
      var i :| 0 <= i <= |b| - |w| && IsAt(b, w, i);
      assert IsAt(a, w, i + 1);
    }
  }

  /** The string test and the SQL pattern agree on every name. */
  lemma PatternAgreesWithTheName(value: string)
    ensures MatchesOmnibusName(value) <==> Like(value, OmnibusLikePattern())
  {
    LikeAnywhere(value, OMNIBUS_KEYWORD);
    assert Lower(OMNIBUS_KEYWORD) == OMNIBUS_KEYWORD;
  }

  // ------------------------------------------------------------------- the query's condition

  /** SQL's truth values. */
  datatype Truth = True | False | Unknown

  function Or(a: Truth, b: Truth): Truth {
    if a == True || b == True then True else if a == Unknown || b == Unknown then Unknown else False
  }

  function LikeColumn(column: Option<string>, pattern: string): Truth {
    if column.None? then Unknown else if Like(column.value, pattern) then True else False
  }

  datatype SeriesRow = SeriesRow(id: string, name: string, deleted: bool)

  function OmnibusSeries(table: seq<SeriesRow>): set<string> {
    set k | 0 <= k < |table| && Like(table[k].name, OmnibusLikePattern()) && !table[k].deleted :: table[k].id
  }

  function InSubquery(column: Option<string>, ids: set<string>): Truth {
    if ids == {} then False
    else if column.None? then Unknown
    else if column.value in ids then True
    else False
  }

  /** A book with its metadata joined on; without any, the metadata columns are null. */
  datatype Book = Book(name: string, title: Option<string>, format: Option<string>, series: Option<string>)

  function QualifyingCondition(book: Book, table: seq<SeriesRow>): Truth {
    var pattern := OmnibusLikePattern();
    Or(Or(Or(LikeColumn(Some(book.name), pattern), LikeColumn(book.title, pattern)),
          LikeColumn(book.format, pattern)),
       InSubquery(book.series, OmnibusSeries(table)))
  }

  /** The query selects exactly the books whose own name, title or format, or whose live
      series' name, passes the string test; a null column never gets in the way. */
  lemma QualifyingBooks(book: Book, table: seq<SeriesRow>)
    ensures QualifyingCondition(book, table) == True <==>
      || MatchesOmnibusName(book.name)
      || (book.title.Some? && MatchesOmnibusName(book.title.value))
      || (book.format.Some? && MatchesOmnibusName(book.format.value))
      || exists k :: 0 <= k < |table| && !table[k].deleted && book.series == Some(table[k].id)
                  && MatchesOmnibusName(table[k].name)
  {
    forall value: string ensures MatchesOmnibusName(value) <==> Like(value, OmnibusLikePattern()) {
      PatternAgreesWithTheName(value);
    }
    var ids := OmnibusSeries(table);
    assert InSubquery(book.series, ids) == True <==> book.series.Some? && book.series.value in ids;
    forall k | 0 <= k < |table| && !table[k].deleted && MatchesOmnibusName(table[k].name) ensures table[k].id in ids {
    }
  }
}
