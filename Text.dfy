/**
 * The string operations of the wizard (App.tsx): JavaScript's `String.prototype.trim`,
 * `split(',')` with the keyword parser built on it, and the tag stripper
 * `content.replace(/<[^>]*>/g, '')` applied before the article is copied.
 *
 * A JavaScript string is a sequence of UTF-16 code units and a Dafny `string` a sequence
 * of Unicode scalar values. Every character these operations look at ('<', '>', ',' and
 * the whitespace characters) lies in the Basic Multilingual Plane and is never half of a
 * surrogate pair, so the two views give the same results.
 */
module Text {

  /** The WhiteSpace and LineTerminator code points of ECMAScript; `trim` removes exactly these. */
  predicate IsWhitespace(c: char) {
    c == '\t' || c == '\n' || c == '\U{000B}' || c == '\U{000C}' || c == '\r' || c == ' '
    || c == '\U{00A0}' || c == '\U{1680}' || ('\U{2000}' <= c <= '\U{200A}')
    || c == '\U{2028}' || c == '\U{2029}' || c == '\U{202F}' || c == '\U{205F}'
    || c == '\U{3000}' || c == '\U{FEFF}'
  }

  /** Neither end of `s` is whitespace. */
  predicate IsTrimmed(s: string) {
    s == [] || (!IsWhitespace(s[0]) && !IsWhitespace(s[|s| - 1]))
  }

  /** Where the slice that `trim` keeps begins: the length of the leading whitespace. */
  function TrimStartIndex(s: string): (n: nat)
    ensures n <= |s|
    ensures forall i :: 0 <= i < n ==> IsWhitespace(s[i])
    ensures n == |s| || !IsWhitespace(s[n])
  {
    if s != [] && IsWhitespace(s[0]) then 1 + TrimStartIndex(s[1..]) else 0
  }

  /** Where the slice that `trim` keeps ends: the length of `s` without its trailing whitespace. */
  function TrimEndIndex(s: string): (n: nat)
    ensures n <= |s|
    ensures forall i :: n <= i < |s| ==> IsWhitespace(s[i])
    ensures n == 0 || !IsWhitespace(s[n - 1])
  {
    if s != [] && IsWhitespace(s[|s| - 1]) then TrimEndIndex(s[..|s| - 1]) else |s|
  }

  /**
   * JavaScript's `s.trim()`: the result is the slice of `s` that starts after its leading
   * whitespace, everything after the slice is whitespace, and neither end of the slice is.
   */
  function Trim(s: string): (r: string)
    ensures IsTrimmed(r)
    ensures var lead := TrimStartIndex(s);
      lead + |r| <= |s| && r == s[lead..lead + |r|]
      && (forall i :: 0 <= i < lead ==> IsWhitespace(s[i]))
      && (forall i :: lead + |r| <= i < |s| ==> IsWhitespace(s[i]))
    ensures IsTrimmed(s) ==> r == s
  {
    var lead, end := TrimStartIndex(s), TrimEndIndex(s);
    if end <= lead then [] else s[lead..end]
  }

  /** `s.trim()` is empty, so falsy in JavaScript, exactly when `s` is all whitespace. */
  lemma TrimEmpty(s: string)
    ensures Trim(s) == [] <==> forall i :: 0 <= i < |s| ==> IsWhitespace(s[i])
  {
  }

  /** A single space in front of a trimmed string is trimmed away again. */
  lemma TrimLeadingSpace(k: string)
    requires IsTrimmed(k)
    ensures Trim(" " + k) == k
  {
    var s := " " + k;
    assert s[1..] == k;
    assert TrimStartIndex(s) == 1 + TrimStartIndex(k);
    if k != [] {
      assert s[|s| - 1] == k[|k| - 1];
      assert s[1..|s|] == k;
    } else {
      assert s[..|s| - 1] == [];
    }
  }

  /** The index of the first occurrence of `c` in `s`. */
  function IndexOf(s: string, c: char): (i: nat)
    requires c in s
    ensures i < |s| && s[i] == c && c !in s[..i]
  {
    if s[0] == c then 0
    else
      var j := IndexOf(s[1..], c);
      assert s[..1 + j] == [s[0]] + s[1..][..j];
      1 + j
  }

  /** The first occurrence of `c` in `a + [c] + b` is the one after `a` when `a` has none. */
  lemma IndexOfAfter(a: string, c: char, b: string)
    requires c !in a
    ensures IndexOf(a + [c] + b, c) == |a|
  {
    var s := a + [c] + b;
    assert s[|a|] == c;
  }

  /**
   * JavaScript's `s.split(sep)` for a one-character separator: the pieces between the
   * separators, so one more piece than `s` has separators, and never an empty list.
   */
  function Split(s: string, sep: char): (pieces: seq<string>)
    ensures |pieces| == multiset(s)[sep] + 1
    ensures forall k :: 0 <= k < |pieces| ==> sep !in pieces[k]
    decreases |s|
  {
    if sep !in s then [s]
    else
      var i := IndexOf(s, sep);
      assert s == s[..i] + [sep] + s[i + 1..];
      [s[..i]] + Split(s[i + 1..], sep)
  }

  /** JavaScript's `pieces.join(sep)`. */
  function Join(pieces: seq<string>, sep: string): string
  {
    if |pieces| == 0 then []
    else if |pieces| == 1 then pieces[0]
    else pieces[0] + sep + Join(pieces[1..], sep)
  }

  /** Joining the pieces of a split with the separator gives back the string. */
  lemma {:induction false} JoinSplit(s: string, sep: char)
    ensures Join(Split(s, sep), [sep]) == s
    decreases |s|
  {
    if sep in s {
      var i := IndexOf(s, sep);
      JoinSplit(s[i + 1..], sep);
      assert s == s[..i] + [sep] + s[i + 1..];
    }
  }

  /** A split of `a + [sep] + rest` with no separator in `a` starts with the piece `a`. */
  lemma SplitAfterFirst(a: string, sep: char, rest: string)
    requires sep !in a
    ensures Split(a + [sep] + rest, sep) == [a] + Split(rest, sep)
  {
    var s := a + [sep] + rest;
    assert sep in s by { assert s[|a|] == sep; }
    IndexOfAfter(a, sep, rest);
    assert s[..|a|] == a;
    assert s[|a| + 1..] == rest;
  }

  /** Splitting a join of separator-free pieces gives back the pieces. */
  lemma {:induction false} SplitJoin(pieces: seq<string>, sep: char)
    requires |pieces| >= 1
    requires forall k :: 0 <= k < |pieces| ==> sep !in pieces[k]
    ensures Split(Join(pieces, [sep]), sep) == pieces
  {
    if |pieces| > 1 {
      var rest := Join(pieces[1..], [sep]);
      assert Join(pieces, [sep]) == pieces[0] + [sep] + rest;
      assert sep !in pieces[0];
      SplitAfterFirst(pieces[0], sep, rest);
      SplitJoin(pieces[1..], sep);
      assert pieces == [pieces[0]] + pieces[1..];
    } else {
      assert sep !in pieces[0];
    }
  }

  /**
   * The keyword input's parser, `text.split(',').map(k => k.trim())`: one keyword per
   * comma-separated piece, each trimmed and free of commas.
   */
  function ParseKeywords(text: string): (keywords: seq<string>)
    ensures |keywords| == multiset(text)[','] + 1
    ensures forall k :: 0 <= k < |keywords| ==>
      IsTrimmed(keywords[k]) && ',' !in keywords[k]
  {
    var pieces := Split(text, ',');
    seq(|pieces|, k requires 0 <= k < |pieces| => Trim(pieces[k]))
  }

  /** Each keyword is the trimmed piece at the same position of the comma split. */
  lemma ParseKeywordsPieces(text: string, k: nat)
    requires k < |ParseKeywords(text)|
    ensures k < |Split(text, ',')| && ParseKeywords(text)[k] == Trim(Split(text, ',')[k])
  {
  }

  /** Every piece after the first gets one space in front of it. */
  function SpaceLater(ks: seq<string>): seq<string>
  {
    seq(|ks|, k requires 0 <= k < |ks| => " " + ks[k])
  }

  lemma JoinSpacedHead(a: string, ks: seq<string>)
    ensures Join([" " + a] + ks, ",") == " " + Join([a] + ks, ",")
  {
    if |ks| > 0 {
      assert ([" " + a] + ks)[1..] == ks;
      assert ([a] + ks)[1..] == ks;
    }
  }

  /** Joining with ", " is joining with "," after putting a space before every later piece. */
  lemma {:induction false} JoinCommaSpace(ks: seq<string>)
    requires |ks| >= 1
    ensures Join(ks, ", ") == Join([ks[0]] + SpaceLater(ks[1..]), ",")
    decreases |ks|
  {
    if |ks| > 1 {
      var tail := SpaceLater(ks[2..]);
      JoinCommaSpace(ks[1..]);
      assert ks[1..][0] == ks[1] && ks[1..][1..] == ks[2..];
      assert SpaceLater(ks[1..]) == [" " + ks[1]] + tail;
      JoinSpacedHead(ks[1], tail);
      assert ([ks[0]] + SpaceLater(ks[1..]))[1..] == SpaceLater(ks[1..]);
    }
  }

  /**
   * The keyword input shows `keywords.join(', ')` and parses its edits back with
   * ParseKeywords: a non-empty list of trimmed, comma-free keywords survives the round trip.
   */
  lemma KeywordsDisplayRoundTrip(ks: seq<string>)
    requires |ks| >= 1
    requires forall k :: 0 <= k < |ks| ==> IsTrimmed(ks[k]) && ',' !in ks[k]
    ensures ParseKeywords(Join(ks, ", ")) == ks
  {
    var spaced := [ks[0]] + SpaceLater(ks[1..]);
    JoinCommaSpace(ks);
    SpacedPieces(ks);
    SplitJoin(spaced, ',');
    ParseOfPieces(Join(ks, ", "), spaced, ks);
  }

  lemma ParseOfPieces(text: string, pieces: seq<string>, ks: seq<string>)
    requires Split(text, ',') == pieces && |pieces| == |ks|
    requires forall k :: 0 <= k < |pieces| ==> Trim(pieces[k]) == ks[k]
    ensures ParseKeywords(text) == ks
  {
  }

  /** The spaced pieces are comma-free and trim back to the keywords. */
  lemma SpacedPieces(ks: seq<string>)
    requires |ks| >= 1
    requires forall k :: 0 <= k < |ks| ==> IsTrimmed(ks[k]) && ',' !in ks[k]
    ensures var spaced := [ks[0]] + SpaceLater(ks[1..]);
      |spaced| == |ks|
      && (forall k :: 0 <= k < |spaced| ==> ',' !in spaced[k] && Trim(spaced[k]) == ks[k])
  {
    var later := SpaceLater(ks[1..]);
    var spaced := [ks[0]] + later;
    forall k | 0 <= k < |spaced| ensures ',' !in spaced[k] && Trim(spaced[k]) == ks[k] {
      if k > 0 {
        assert spaced[k] == later[k - 1] == " " + ks[k];
        TrimLeadingSpace(ks[k]);
      }
    }
  }

  /** No '<' in `s` is followed, anywhere later, by a '>': the regex /<[^>]*>/ has no match. */
  predicate TagFree(s: string) {
    forall i, j :: 0 <= i < j < |s| && s[i] == '<' ==> s[j] != '>'
  }

  /**
   * `s.replace(/<[^>]*>/g, '')`. Scanning left to right, a '<' with some '>' after it
   * starts a match that runs to the first such '>' (it may contain further '<'), and the
   * match is deleted; any other character is kept and the scan moves on by one.
   */
  function StripTags(s: string): (r: string)
    ensures |r| <= |s|
    ensures forall k :: 0 <= k < |r| ==> r[k] in s
    decreases |s|
  {
    if s == [] then []
    else if s[0] == '<' && '>' in s[1..] then
      StripTags(s[IndexOf(s[1..], '>') + 2..])
    else
      [s[0]] + StripTags(s[1..])
  }

  /** The stripped text holds no tag any more. */
  lemma {:induction false} StripTagsTagFree(s: string)
    ensures TagFree(StripTags(s))
    decreases |s|
  {
    if s == [] {
    } else if s[0] == '<' && '>' in s[1..] {
      StripTagsTagFree(s[IndexOf(s[1..], '>') + 2..]);
    } else {
      var t := StripTags(s[1..]);
      StripTagsTagFree(s[1..]);
      var r := [s[0]] + t;
      forall i, j | 0 <= i < j < |r| && r[i] == '<' ensures r[j] != '>' {
        if i == 0 {
          assert t[j - 1] in s[1..];
        } else {
          assert r[i] == t[i - 1] && r[j] == t[j - 1];
        }
      }
    }
  }

  /** Text without tags is left as it is. */
  lemma {:induction false} TagFreeUnchanged(s: string)
    requires TagFree(s)
    ensures StripTags(s) == s
    decreases |s|
  {
    if s != [] {
      if s[0] == '<' {
        assert forall j :: 0 <= j < |s[1..]| ==> s[1..][j] == s[j + 1];
      }
      assert TagFree(s[1..]) by {
        forall i, j | 0 <= i < j < |s[1..]| && s[1..][i] == '<' ensures s[1..][j] != '>' {
          assert s[i + 1] == '<';
        }
      }
      TagFreeUnchanged(s[1..]);
    }
  }

  /** Text that holds a tag gets strictly shorter. */
  lemma {:induction false} StripTagsShortens(s: string)
    requires !TagFree(s)
    ensures |StripTags(s)| < |s|
    decreases |s|
  {
    var i, j :| 0 <= i < j < |s| && s[i] == '<' && s[j] == '>';
    if !(s[0] == '<' && '>' in s[1..]) {
      assert s[1..][i - 1] == '<' && s[1..][j - 1] == '>';
      StripTagsShortens(s[1..]);
    }
  }

  /** StripTags leaves a string unchanged exactly when the string holds no tag. */
  lemma StripTagsFixedPoint(s: string)
    ensures StripTags(s) == s <==> TagFree(s)
  {
    if TagFree(s) {
      TagFreeUnchanged(s);
    } else {
      StripTagsShortens(s);
    }
  }

  /** Stripping twice is stripping once. */
  lemma StripTagsIdempotent(s: string)
    ensures StripTags(StripTags(s)) == StripTags(s)
  {
    StripTagsTagFree(s);
    TagFreeUnchanged(StripTags(s));
  }

  /** Text with no '<' at all is left as it is. */
  lemma NoOpenBracketUnchanged(s: string)
    requires '<' !in s
    ensures StripTags(s) == s
  {
    assert TagFree(s) by {
      forall i | 0 <= i < |s| ensures s[i] != '<' {
        assert s[i] in s;
      }
    }
    TagFreeUnchanged(s);
  }

  /** A character other than '<' is kept. */
  lemma StripTagsKeep(c: char, rest: string)
    requires c != '<'
    ensures StripTags([c] + rest) == [c] + StripTags(rest)
  {
    assert ([c] + rest)[1..] == rest;
  }

  /** A tag, from '<' to the first '>' after it, is deleted whatever it holds. */
  lemma StripTagsDrop(body: string, rest: string)
    requires '>' !in body
    ensures StripTags("<" + body + ">" + rest) == StripTags(rest)
  {
    var s := "<" + body + ">" + rest;
    assert s[1..] == body + ['>'] + rest;
    IndexOfAfter(body, '>', rest);
    assert s[|body| + 2..] == rest;
  }

  /** A '<' inside a match is deleted with it. */
  lemma StripTagsNestedOpen()
    ensures StripTags("<a<b>") == ""
  {
    StripTagsDrop("a<b", "");
    assert "<a<b>" == "<" + "a<b" + ">" + "";
  }

  /** A closing tag alone vanishes. */
  lemma StripTagsClosing()
    ensures StripTags("</p>") == ""
  {
    StripTagsDrop("/p", "");
    assert "</p>" == "<" + "/p" + ">" + "";
  }

  /** Text in front of a tag is kept. */
  lemma StripTagsTextBeforeTag()
    ensures StripTags("Oi</p>") == "Oi"
  {
    StripTagsClosing();
    StripTagsKeep('i', "</p>");
    assert "i</p>" == ['i'] + "</p>";
    StripTagsKeep('O', "i</p>");
    assert "Oi</p>" == ['O'] + "i</p>";
  }
}
