/**
  Properties of the genre normalisation and of the lookup: what the key
  looks like, idempotence, which spellings of a genre share a key, an
  independent one-pass reading of the white-space replacement, and the
  first-match behaviour of the lookup.
*/
module RecommendBookProperties {

  import opened Options
  import opened RecommendBook

  // ---------------------------------------------------------------------
  // The key has no white space and no upper case; normalising is idempotent
  // ---------------------------------------------------------------------

  lemma TrimKeepsTrimmed(s: string)
    requires NoWhitespace(s)
    ensures Trim(s) == s
  {
  }

  lemma LowerKeepsLowercase(s: string)
    requires NoUppercase(s)
    ensures Lower(s) == s
  {
  }

  /** Replacing runs of white space changes nothing in a string that has none. */
  lemma {:induction false} CollapseKeepsUnspaced(s: string)
    requires NoWhitespace(s)
    ensures CollapseWhitespace(s) == s
  {
    if s != [] {
      CollapseKeepsUnspaced(s[1..]);
    }
  }

  /** A key is its own key: normalising twice is normalising once. */
  lemma NormalizeIdempotent(raw: string)
    ensures NormalizeGenre(NormalizeGenre(raw)) == NormalizeGenre(raw)
  {
    var key := NormalizeGenre(raw);
    TrimKeepsTrimmed(key);
    LowerKeepsLowercase(key);
    CollapseKeepsUnspaced(key);
  }

  // ---------------------------------------------------------------------
  // A one-pass reading of replace(/\s+/g, "_")
  // ---------------------------------------------------------------------

  /**
    The replacement read one character at a time: `afterWs` says whether
    the character before was white space. A white-space character that
    opens a run gives `_`, one that continues a run gives nothing, and any
    other character is copied.
  */
  function ReplaceRuns(s: string, afterWs: bool): string {
    if s == [] then
      []
    else
      (if !IsWhitespace(s[0]) then [s[0]] else if afterWs then [] else "_")
      + ReplaceRuns(s[1..], IsWhitespace(s[0]))
  }

  /** Whether the character before the text that follows `s` is white space. */
  function EndsInWhitespace(s: string, afterWs: bool): bool {
    if s == [] then afterWs else IsWhitespace(s[|s| - 1])
  }

  /** The scan is compositional: the second half only needs to know how the first half ended. */
  lemma {:induction false} ReplaceRunsAppend(a: string, b: string, afterWs: bool)
    ensures ReplaceRuns(a + b, afterWs) == ReplaceRuns(a, afterWs) + ReplaceRuns(b, EndsInWhitespace(a, afterWs))
  {
    if a == [] {
      assert a + b == b;
    } else {
      var head := if !IsWhitespace(a[0]) then [a[0]] else if afterWs then [] else "_";
      var ws := IsWhitespace(a[0]);
      calc {
        ReplaceRuns(a + b, afterWs);
      ==  { assert (a + b)[0] == a[0]; assert (a + b)[1..] == a[1..] + b; }
        head + ReplaceRuns(a[1..] + b, ws);
      ==  { ReplaceRunsAppend(a[1..], b, ws); }
        head + (ReplaceRuns(a[1..], ws) + ReplaceRuns(b, EndsInWhitespace(a[1..], ws)));
      ==  { assert EndsInWhitespace(a[1..], ws) == EndsInWhitespace(a, afterWs) by {
              if |a| > 1 { assert a[1..][|a| - 2] == a[|a| - 1]; }
            }
          }
        (head + ReplaceRuns(a[1..], ws)) + ReplaceRuns(b, EndsInWhitespace(a, afterWs));
      ==  { assert ReplaceRuns(a, afterWs) == head + ReplaceRuns(a[1..], ws); }
        ReplaceRuns(a, afterWs) + ReplaceRuns(b, EndsInWhitespace(a, afterWs));
      }
    }
  }

  /** A whole run of white space gives one `_`, or nothing when it continues a run. */
  lemma {:induction false} ReplaceRunsOfRun(w: string, afterWs: bool)
    requires w != [] && AllWhitespace(w)
    ensures ReplaceRuns(w, afterWs) == if afterWs then [] else "_"
  {
    if |w| > 1 {
      ReplaceRunsOfRun(w[1..], true);
    }
  }

  /** Inside a run, the leading white space of what is left contributes nothing. */
  lemma {:induction false} ReplaceRunsSkipsRun(t: string)
    ensures ReplaceRuns(t, true) == ReplaceRuns(TrimStart(t), true)
  {
    if t != [] && IsWhitespace(t[0]) {
      ReplaceRunsSkipsRun(t[1..]);
    }
  }

  /** The recursive definition and the one-pass scan agree on every string. */
  lemma {:induction false} CollapseIsReplaceRuns(s: string)
    decreases |s|
    ensures CollapseWhitespace(s) == ReplaceRuns(s, false)
  {
    if s != [] {
      if IsWhitespace(s[0]) {
        var t := TrimStart(s[1..]);
        TrimStartSpec(s[1..]);
        CollapseIsReplaceRuns(t);
        assert ReplaceRuns(t, false) == ReplaceRuns(t, true);
        ReplaceRunsSkipsRun(s[1..]);
      } else {
        CollapseIsReplaceRuns(s[1..]);
      }
    }
  }

  /**
    Each maximal run of white space becomes exactly one `_`, and the
    text on either side of it is treated independently.
  */
  lemma CollapseRun(a: string, w: string, b: string)
    requires a == [] || !IsWhitespace(a[|a| - 1])
    requires w != [] && AllWhitespace(w)
    requires b == [] || !IsWhitespace(b[0])
    ensures CollapseWhitespace(a + w + b) == CollapseWhitespace(a) + "_" + CollapseWhitespace(b)
  {
    calc {
      CollapseWhitespace(a + w + b);
    ==  { CollapseIsReplaceRuns(a + w + b); }
      ReplaceRuns(a + w + b, false);
    ==  { assert a + w + b == a + (w + b); }
      ReplaceRuns(a + (w + b), false);
    ==  { ReplaceRunsAppend(a, w + b, false); }
      ReplaceRuns(a, false) + ReplaceRuns(w + b, false);
    ==  { ReplaceRunsAppend(w, b, false); }
      ReplaceRuns(a, false) + (ReplaceRuns(w, false) + ReplaceRuns(b, true));
    ==  { ReplaceRunsOfRun(w, false); assert ReplaceRuns(b, true) == ReplaceRuns(b, false); }
      ReplaceRuns(a, false) + "_" + ReplaceRuns(b, false);
    ==  { CollapseIsReplaceRuns(a); CollapseIsReplaceRuns(b); }
      CollapseWhitespace(a) + "_" + CollapseWhitespace(b);
    }
  }

  /** The scan of `a + w + b` for a run `w`: what `a` gives, then one `_` or nothing, then what `b` gives. */
  lemma CollapseAroundRun(a: string, w: string, b: string)
    requires w != [] && AllWhitespace(w)
    ensures CollapseWhitespace(a + w + b)
            == ReplaceRuns(a, false) + (if EndsInWhitespace(a, false) then [] else "_") + ReplaceRuns(b, true)
  {
    var f := EndsInWhitespace(a, false);
    calc {
      CollapseWhitespace(a + w + b);
    ==  { CollapseIsReplaceRuns(a + w + b); }
      ReplaceRuns(a + w + b, false);
    ==  { assert a + w + b == a + (w + b); }
      ReplaceRuns(a + (w + b), false);
    ==  { ReplaceRunsAppend(a, w + b, false); }
      ReplaceRuns(a, false) + ReplaceRuns(w + b, f);
    ==  { ReplaceRunsAppend(w, b, f); }
      ReplaceRuns(a, false) + (ReplaceRuns(w, f) + ReplaceRuns(b, true));
    ==  { ReplaceRunsOfRun(w, f); }
      ReplaceRuns(a, false) + (if f then [] else "_") + ReplaceRuns(b, true);
    }
  }

  /** The length of a run of white space does not matter. */
  lemma CollapseRunLength(a: string, w1: string, w2: string, b: string)
    requires w1 != [] && AllWhitespace(w1)
    requires w2 != [] && AllWhitespace(w2)
    ensures CollapseWhitespace(a + w1 + b) == CollapseWhitespace(a + w2 + b)
  {
    CollapseAroundRun(a, w1, b);
    CollapseAroundRun(a, w2, b);
  }

  // ---------------------------------------------------------------------
  // Trimming and lower-casing over concatenations
  // ---------------------------------------------------------------------

  lemma AllWhitespaceAppend(x: string, y: string)
    ensures AllWhitespace(x + y) <==> AllWhitespace(x) && AllWhitespace(y)
  {
    if AllWhitespace(x) && AllWhitespace(y) {
      forall i | 0 <= i < |x + y| ensures IsWhitespace((x + y)[i]) {
        if i >= |x| { assert (x + y)[i] == y[i - |x|]; }
      }
    }
    if AllWhitespace(x + y) {
      forall i | 0 <= i < |x| ensures IsWhitespace(x[i]) {
        assert (x + y)[i] == x[i];
      }
      forall i | 0 <= i < |y| ensures IsWhitespace(y[i]) {
        assert (x + y)[|x| + i] == y[i];
      }
    }
  }

  lemma {:induction false} TrimStartAppend(a: string, c: string)
    ensures TrimStart(a + c) == if AllWhitespace(a) then TrimStart(c) else TrimStart(a) + c
  {
    if a == [] {
      assert a + c == c;
    } else {
      assert (a + c)[0] == a[0];
      if IsWhitespace(a[0]) {
        assert (a + c)[1..] == a[1..] + c;
        TrimStartAppend(a[1..], c);
        assert AllWhitespace(a) <==> AllWhitespace(a[1..]);
      } else {
        assert !AllWhitespace(a);
      }
    }
  }

  lemma {:induction false} TrimEndAppend(a: string, c: string)
    ensures TrimEnd(a + c) == if AllWhitespace(c) then TrimEnd(a) else a + TrimEnd(c)
  {
    if c != [] {
      var n := |c| - 1;
      assert (a + c)[|a + c| - 1] == c[n];
      if IsWhitespace(c[n]) {
        assert (a + c)[..|a + c| - 1] == a + c[..n];
        TrimEndAppend(a, c[..n]);
        assert AllWhitespace(c) <==> AllWhitespace(c[..n]);
      }
    } else {
      assert a + c == a;
    }
  }

  /** White space around a text does not change what trimming keeps. */
  lemma TrimPadding(w1: string, x: string, w2: string)
    requires AllWhitespace(w1) && AllWhitespace(w2)
    ensures Trim(w1 + x + w2) == Trim(x)
  {
    assert w1 + x + w2 == w1 + (x + w2);
    TrimStartAppend(w1, x + w2);
    TrimStartAppend(x, w2);
    if AllWhitespace(x) {
      TrimStartAppend(w2, []);
      assert w2 + [] == w2;
      TrimStartAppend(x, []);
      assert x + [] == x;
    } else {
      TrimEndAppend(TrimStart(x), w2);
    }
  }

  lemma LowerAppend(a: string, b: string)
    ensures Lower(a + b) == Lower(a) + Lower(b)
  {
  }

  lemma {:induction false} LowerTrimStart(s: string)
    ensures TrimStart(Lower(s)) == Lower(TrimStart(s))
  {
    if s != [] {
      assert Lower(s)[1..] == Lower(s[1..]);
      LowerTrimStart(s[1..]);
    }
  }

  lemma {:induction false} LowerTrimEnd(s: string)
    ensures TrimEnd(Lower(s)) == Lower(TrimEnd(s))
  {
    if s != [] {
      assert Lower(s)[..|s| - 1] == Lower(s[..|s| - 1]);
      LowerTrimEnd(s[..|s| - 1]);
    }
  }

  /** Trimming and lower-casing commute, since lower-casing keeps white space where it was. */
  lemma LowerTrim(s: string)
    ensures Lower(Trim(s)) == Trim(Lower(s))
  {
    LowerTrimStart(s);
    LowerTrimEnd(TrimStart(s));
  }

  // ---------------------------------------------------------------------
  // Spellings of one genre share one key
  // ---------------------------------------------------------------------

  /** Letter case does not matter: strings equal up to case have the same key. */
  lemma NormalizeIgnoresCase(x: string, y: string)
    requires Lower(x) == Lower(y)
    ensures NormalizeGenre(x) == NormalizeGenre(y)
  {
    LowerTrim(x);
    LowerTrim(y);
  }

  /** `x` and `y` differ at most in the case of ASCII letters. */
  predicate SameUpToCase(x: string, y: string) {
    && |x| == |y|
    && forall i :: 0 <= i < |x| ==>
         || x[i] == y[i]
         || (IsUpper(x[i]) && y[i] as int == x[i] as int + 32)
         || (IsUpper(y[i]) && x[i] as int == y[i] as int + 32)
  }

  /** Two spellings that differ only in letter case lower-case alike. */
  lemma LowerUpToCase(x: string, y: string)
    requires SameUpToCase(x, y)
    ensures Lower(x) == Lower(y)
  {
  }

  /** Two spellings that differ only in letter case have the same key. */
  lemma NormalizeCaseInsensitive(x: string, y: string)
    requires SameUpToCase(x, y)
    ensures NormalizeGenre(x) == NormalizeGenre(y)
  {
    LowerUpToCase(x, y);
    NormalizeIgnoresCase(x, y);
  }

  /** White space before and after the genre does not matter. */
  lemma NormalizeIgnoresPadding(w1: string, x: string, w2: string)
    requires AllWhitespace(w1) && AllWhitespace(w2)
    ensures NormalizeGenre(w1 + x + w2) == NormalizeGenre(x)
  {
    TrimPadding(w1, x, w2);
  }

  /** Trimming a text with a run of white space inside it. */
  lemma TrimAroundRun(a: string, w: string, b: string)
    requires AllWhitespace(w)
    ensures Trim(a + w + b) == if AllWhitespace(a) then Trim(b)
                               else if AllWhitespace(b) then Trim(a)
                               else TrimStart(a) + w + TrimEnd(b)
  {
    assert a + w + b == a + (w + b);
    TrimStartAppend(a, w + b);
    if AllWhitespace(a) {
      TrimStartAppend(w, b);
    } else {
      var a' := TrimStart(a);
      AllWhitespaceAppend(w, b);
      TrimEndAppend(a', w + b);
      if !AllWhitespace(b) {
        TrimEndAppend(w, b);
        assert a' + (w + TrimEnd(b)) == a' + w + TrimEnd(b);
      }
    }
  }

  /** The length of a run of white space inside the genre does not matter. */
  lemma NormalizeIgnoresRunLength(a: string, w1: string, w2: string, b: string)
    requires w1 != [] && AllWhitespace(w1)
    requires w2 != [] && AllWhitespace(w2)
    ensures NormalizeGenre(a + w1 + b) == NormalizeGenre(a + w2 + b)
  {
    TrimAroundRun(a, w1, b);
    TrimAroundRun(a, w2, b);
    if !AllWhitespace(a) && !AllWhitespace(b) {
      var a', b' := TrimStart(a), TrimEnd(b);
      LowerAppend(a' + w1, b');
      LowerAppend(a', w1);
      LowerAppend(a' + w2, b');
      LowerAppend(a', w2);
      CollapseRunLength(Lower(a'), Lower(w1), Lower(w2), Lower(b'));
    }
  }

  /** A string that is already a key normalises to itself. */
  lemma NormalizeKeepsKey(s: string)
    requires NoWhitespace(s) && NoUppercase(s)
    ensures NormalizeGenre(s) == s
  {
    TrimKeepsTrimmed(s);
    LowerKeepsLowercase(s);
    CollapseKeepsUnspaced(s);
  }

  /** Two lower-case words with white space between them give the words joined by `_`. */
  lemma TwoWordKey(a: string, w: string, b: string)
    requires a != [] && NoWhitespace(a) && NoUppercase(a)
    requires w != [] && AllWhitespace(w)
    requires b != [] && NoWhitespace(b) && NoUppercase(b)
    ensures NormalizeGenre(a + w + b) == a + "_" + b
  {
    assert !IsWhitespace(a[0]) && !IsWhitespace(b[|b| - 1]);
    TrimAroundRun(a, w, b);
    assert TrimStart(a) == a && TrimEnd(b) == b;
    assert NoUppercase(w);
    LowerKeepsLowercase(a);
    LowerKeepsLowercase(w);
    LowerKeepsLowercase(b);
    LowerAppend(a + w, b);
    LowerAppend(a, w);
    CollapseRun(a, w, b);
    CollapseKeepsUnspaced(a);
    CollapseKeepsUnspaced(b);
  }

  /** Lower-casing word by word around a run of white space. */
  lemma LowerAroundRun(a: string, w: string, b: string)
    requires AllWhitespace(w)
    ensures Lower(a + w + b) == Lower(a) + w + Lower(b)
  {
    LowerAppend(a + w, b);
    LowerAppend(a, w);
    assert NoUppercase(w);
    LowerKeepsLowercase(w);
  }

  lemma ScienceFictionOneSpace()
    ensures NormalizeGenre("science fiction") == "science_fiction"
  {
    assert "science" + " " + "fiction" == "science fiction";
    assert "science" + "_" + "fiction" == "science_fiction";
    TwoWordKey("science", " ", "fiction");
  }

  lemma ScienceFictionTwoSpaces()
    ensures NormalizeGenre("science  fiction") == "science_fiction"
  {
    assert "science" + "  " + "fiction" == "science  fiction";
    assert "science" + "_" + "fiction" == "science_fiction";
    TwoWordKey("science", "  ", "fiction");
  }

  lemma ScienceFictionThreeSpaces()
    ensures NormalizeGenre("science   fiction") == "science_fiction"
  {
    assert "science" + "   " + "fiction" == "science   fiction";
    assert "science" + "_" + "fiction" == "science_fiction";
    TwoWordKey("science", "   ", "fiction");
  }

  lemma ScienceFictionCapitalised()
    ensures NormalizeGenre("Science Fiction") == "science_fiction"
  {
    assert "Science" + " " + "Fiction" == "Science Fiction";
    assert "science" + " " + "fiction" == "science fiction";
    assert Lower("Science") == "science" && Lower("Fiction") == "fiction";
    LowerAroundRun("Science", " ", "Fiction");
    LowerAroundRun("science", " ", "fiction");
    LowerKeepsLowercase("science");
    LowerKeepsLowercase("fiction");
    NormalizeIgnoresCase("Science Fiction", "science fiction");
    ScienceFictionOneSpace();
  }

  lemma ScienceFictionUpperCase()
    ensures NormalizeGenre("SCIENCE   FICTION") == "science_fiction"
  {
    assert "SCIENCE" + "   " + "FICTION" == "SCIENCE   FICTION";
    assert "science" + "   " + "fiction" == "science   fiction";
    assert Lower("SCIENCE") == "science" && Lower("FICTION") == "fiction";
    LowerAroundRun("SCIENCE", "   ", "FICTION");
    LowerAroundRun("science", "   ", "fiction");
    LowerKeepsLowercase("science");
    LowerKeepsLowercase("fiction");
    NormalizeIgnoresCase("SCIENCE   FICTION", "science   fiction");
    ScienceFictionThreeSpaces();
  }

  lemma ScienceFictionShouted()
    ensures NormalizeGenre("  SCIENCE   FICTION ") == "science_fiction"
  {
    assert "  " + "SCIENCE   FICTION" + " " == "  SCIENCE   FICTION ";
    NormalizeIgnoresPadding("  ", "SCIENCE   FICTION", " ");
    ScienceFictionUpperCase();
  }

  lemma ScienceFictionKey()
    ensures NormalizeGenre("science_fiction") == "science_fiction"
  {
    assert NoWhitespace("science_fiction") && NoUppercase("science_fiction");
    NormalizeKeepsKey("science_fiction");
  }

  /** The spellings of "science fiction" that the agent accepts all give one key. */
  lemma ScienceFictionSpellings()
    ensures NormalizeGenre("science fiction") == "science_fiction"
    ensures NormalizeGenre("science  fiction") == "science_fiction"
    ensures NormalizeGenre("Science Fiction") == "science_fiction"
    ensures NormalizeGenre("  SCIENCE   FICTION ") == "science_fiction"
    ensures NormalizeGenre("science_fiction") == "science_fiction"
  {
    ScienceFictionOneSpace();
    ScienceFictionTwoSpaces();
    ScienceFictionCapitalised();
    ScienceFictionShouted();
    ScienceFictionKey();
  }

  // ---------------------------------------------------------------------
  // The lookup
  // ---------------------------------------------------------------------

  /** Of the books with the query's genre, the one at the smallest index is returned. */
  lemma RecommendPicksFirstMatch(books: seq<Book>, genreRaw: string, i: int)
    requires 0 <= i < |books| && HasGenre(books[i], NormalizeGenre(genreRaw))
    requires forall j :: 0 <= j < i ==> !HasGenre(books[j], NormalizeGenre(genreRaw))
    ensures RecommendBookFromDataset(books, genreRaw) == Some(books[i])
  {
  }

  /** An empty dataset never has a recommendation. */
  lemma RecommendEmptyDataset(genreRaw: string)
    ensures RecommendBookFromDataset([], genreRaw) == None
  {
  }

  /** Queries with the same key get the same answer. */
  lemma RecommendSameKey(books: seq<Book>, q1: string, q2: string)
    requires NormalizeGenre(q1) == NormalizeGenre(q2)
    ensures RecommendBookFromDataset(books, q1) == RecommendBookFromDataset(books, q2)
  {
  }

  lemma MysteryKey()
    ensures NormalizeGenre("mystery") == "mystery"
  {
    assert NoWhitespace("mystery") && NoUppercase("mystery");
    NormalizeKeepsKey("mystery");
  }

  lemma ThrillerKey()
    ensures NormalizeGenre("thriller") == "thriller"
  {
    assert NoWhitespace("thriller") && NoUppercase("thriller");
    NormalizeKeepsKey("thriller");
  }

  /** A dataset of mystery books has nothing for a thriller query. */
  lemma RecommendNoMatch()
    ensures RecommendBookFromDataset([Book(None, None, None, "mystery")], "thriller") == None
  {
    MysteryKey();
    ThrillerKey();
    assert !HasGenre(Book(None, None, None, "mystery"), NormalizeGenre("thriller"));
  }

  /** A science-fiction query finds the one science-fiction book. */
  lemma RecommendDune()
    ensures var dune := Book(Some("Dune"), Some("Frank Herbert"), Some(1965), "science_fiction");
            RecommendBookFromDataset([dune], "Science Fiction") == Some(dune)
  {
    ScienceFictionSpellings();
  }

}
