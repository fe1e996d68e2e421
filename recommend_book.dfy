/**
  The genre lookup of the book-recommendation agent: the `Book` record,
  the normalisation of a genre label to a canonical key, and the lookup of
  the first book of the dataset whose subject has the key of the query.
*/
module RecommendBook {

  import opened Options

  /** One record of the dataset. `null` fields are `None`; the subject is never null. */
  datatype Book = Book(
    title: Option<string>,
    author: Option<string>,
    first_publish_year: Option<int>,
    subject: string)

  // ---------------------------------------------------------------------
  // Characters
  // ---------------------------------------------------------------------

  /**
    The characters JavaScript treats as white space, both in
    `String.prototype.trim` and in the regular-expression class `\s`:
    the WhiteSpace and LineTerminator productions of ECMAScript
    (tab, vertical tab, form feed, space, no-break space, the byte-order
    mark, the other space separators of Unicode, line feed, carriage
    return, line and paragraph separator).
  */
  predicate IsWhitespace(c: char) {
    || c == '\t' || c == '\n' || c == '\U{B}' || c == '\U{C}' || c == '\r' || c == ' '
    || c == '\U{A0}' || c == '\U{1680}' || ('\U{2000}' <= c <= '\U{200A}')
    || c == '\U{2028}' || c == '\U{2029}' || c == '\U{202F}' || c == '\U{205F}'
    || c == '\U{3000}' || c == '\U{FEFF}'
  }

  predicate IsUpper(c: char) {
    'A' <= c <= 'Z'
  }

  /** Lower-casing of one character, restricted to the ASCII letters. */
  function LowerChar(c: char): (r: char)
    ensures !IsUpper(r)
    ensures IsUpper(c) ==> 'a' <= r <= 'z' && r as int - 'a' as int == c as int - 'A' as int
    ensures IsWhitespace(r) <==> IsWhitespace(c)
    ensures !IsUpper(c) ==> r == c
  {
    if IsUpper(c) then (c as int - 'A' as int + 'a' as int) as char else c
  }

  predicate AllWhitespace(s: string) {
    forall i :: 0 <= i < |s| ==> IsWhitespace(s[i])
  }

  predicate NoWhitespace(s: string) {
    forall i :: 0 <= i < |s| ==> !IsWhitespace(s[i])
  }

  predicate NoUppercase(s: string) {
    forall i :: 0 <= i < |s| ==> !IsUpper(s[i])
  }

  // ---------------------------------------------------------------------
  // The three steps of normalizeGenre
  // ---------------------------------------------------------------------

  /** `s` without its leading white space. */
  function TrimStart(s: string): (r: string)
    ensures |r| <= |s|
  {
    if s != [] && IsWhitespace(s[0]) then TrimStart(s[1..]) else s
  }

  /** `s` without its trailing white space. */
  function TrimEnd(s: string): (r: string)
    ensures |r| <= |s|
  {
    if s != [] && IsWhitespace(s[|s| - 1]) then TrimEnd(s[..|s| - 1]) else s
  }

  /** `String.prototype.trim`. */
  function Trim(s: string): (r: string)
    ensures |r| <= |s|
  {
    TrimEnd(TrimStart(s))
  }

  /** What TrimStart leaves is the longest suffix of `s` that does not start with white space. */
  lemma {:induction false} TrimStartSpec(s: string)
    ensures var r := TrimStart(s);
            && r == s[|s| - |r|..]
            && AllWhitespace(s[..|s| - |r|])
            && (r == [] || !IsWhitespace(r[0]))
  {
    if s != [] && IsWhitespace(s[0]) {
      var r := TrimStart(s[1..]);
      TrimStartSpec(s[1..]);
      assert s[..|s| - |r|] == [s[0]] + s[1..][..|s| - 1 - |r|];
    }
  }

  /** What TrimEnd leaves is the longest prefix of `s` that does not end with white space. */
  lemma {:induction false} TrimEndSpec(s: string)
    ensures var r := TrimEnd(s);
            && r == s[..|r|]
            && AllWhitespace(s[|r|..])
            && (r == [] || !IsWhitespace(r[|r| - 1]))
  {
    if s != [] && IsWhitespace(s[|s| - 1]) {
      var r := TrimEnd(s[..|s| - 1]);
      TrimEndSpec(s[..|s| - 1]);
      assert s[|r|..] == s[..|s| - 1][|r|..] + [s[|s| - 1]];
    }
  }

  /**
    Trim keeps the slice of `s` between its leading and its trailing white
    space; the slice neither starts nor ends with white space.
  */
  lemma TrimSpec(s: string)
    ensures var r := Trim(s);
            && (exists i, j :: 0 <= i <= j <= |s| && r == s[i..j] && AllWhitespace(s[..i]) && AllWhitespace(s[j..]))
            && (r == [] || (!IsWhitespace(r[0]) && !IsWhitespace(r[|r| - 1])))
  {
    var t := TrimStart(s);
    var r := TrimEnd(t);
    TrimStartSpec(s);
    TrimEndSpec(t);
    var i := |s| - |t|;
    var j := i + |r|;
    assert r == s[i..j];
    assert s[j..] == t[|r|..];
  }

  /** `String.prototype.toLowerCase` on the ASCII letters; every other character is kept. */
  function Lower(s: string): (r: string)
    ensures |r| == |s| && NoUppercase(r)
    ensures forall i :: 0 <= i < |s| ==> r[i] == LowerChar(s[i])
  {
    seq(|s|, i requires 0 <= i < |s| => LowerChar(s[i]))
  }

  /**
    `replace(/\s+/g, "_")`: every maximal run of white space becomes one
    underscore. A run is skipped with TrimStart, which removes all of it.
  */
  function CollapseWhitespace(s: string): (r: string)
    decreases |s|
    ensures NoWhitespace(r)
  {
    if s == [] then
      []
    else if IsWhitespace(s[0]) then
      "_" + CollapseWhitespace(TrimStart(s[1..]))
    else
      [s[0]] + CollapseWhitespace(s[1..])
  }

  /** Replacing white space by `_` brings in no upper-case letter. */
  lemma {:induction false} CollapseKeepsLowercase(s: string)
    requires NoUppercase(s)
    ensures NoUppercase(CollapseWhitespace(s))
    decreases |s|
  {
    if s != [] {
      var rest := if IsWhitespace(s[0]) then TrimStart(s[1..]) else s[1..];
      TrimStartSpec(s[1..]);
      assert NoUppercase(rest);
      CollapseKeepsLowercase(rest);
    }
  }

  /** `normalizeGenre`: trim, lower-case, then one `_` for each run of white space. */
  function NormalizeGenre(raw: string): (key: string)
    ensures NoWhitespace(key)
    ensures NoUppercase(key)
  {
    CollapseKeepsLowercase(Lower(Trim(raw)));
    CollapseWhitespace(Lower(Trim(raw)))
  }

  // ---------------------------------------------------------------------
  // recommendBookFromDataset
  // ---------------------------------------------------------------------

  /** The test of the filter: the book's normalised subject is `key`. */
  predicate HasGenre(b: Book, key: string) {
    NormalizeGenre(b.subject) == key
  }

  /** `books.filter(...)`: the books of genre `key`, in dataset order. */
  function FilterByGenre(books: seq<Book>, key: string): (matches: seq<Book>)
    ensures |matches| <= |books|
    ensures forall b :: b in matches <==> b in books && HasGenre(b, key)
  {
    if books == [] then
      []
    else if HasGenre(books[0], key) then
      [books[0]] + FilterByGenre(books[1..], key)
    else
      FilterByGenre(books[1..], key)
  }

  /** The first element of the filter is the book at the first index of genre `key`. */
  lemma {:induction false} FilterHeadIsFirstMatch(books: seq<Book>, key: string)
    requires FilterByGenre(books, key) != []
    ensures exists i :: 0 <= i < |books| && books[i] == FilterByGenre(books, key)[0]
                        && HasGenre(books[i], key)
                        && forall j :: 0 <= j < i ==> !HasGenre(books[j], key)
  {
    if HasGenre(books[0], key) {
      assert books[0] == FilterByGenre(books, key)[0];
    } else {
      var rest := books[1..];
      FilterHeadIsFirstMatch(rest, key);
      var i :| 0 <= i < |rest| && rest[i] == FilterByGenre(rest, key)[0]
               && HasGenre(rest[i], key)
               && forall j :: 0 <= j < i ==> !HasGenre(rest[j], key);
      assert books[i + 1] == rest[i];
      assert forall j :: 0 < j < i + 1 ==> books[j] == rest[j - 1];
    }
  }

  /**
    `recommendBookFromDataset`: `None` exactly when no book of the
    dataset has the genre of the query, and otherwise the book at the
    first index whose subject has that genre.
  */
  function RecommendBookFromDataset(books: seq<Book>, genreRaw: string): (r: Option<Book>)
    ensures r.None? <==> forall i :: 0 <= i < |books| ==> !HasGenre(books[i], NormalizeGenre(genreRaw))
    ensures r.Some? ==>
      exists i :: 0 <= i < |books| && books[i] == r.value
                  && HasGenre(books[i], NormalizeGenre(genreRaw))
                  && forall j :: 0 <= j < i ==> !HasGenre(books[j], NormalizeGenre(genreRaw))
  {
    var genre := NormalizeGenre(genreRaw);
    var matches := FilterByGenre(books, genre);
    if |matches| == 0 then
      None
    else
      FilterHeadIsFirstMatch(books, genre);
      Some(matches[0])
  }

}
