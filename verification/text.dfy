/** The string handling the document text helpers rely on: the regular
    expression classes `\p{Cntrl}` and `\s`, `String.trim`, splitting on
    runs of whitespace, and `String.join(" ", ...)`. */
module Text {

  /** `\p{Cntrl}`: the ASCII control characters U+0000..U+001F and U+007F. */
  predicate IsControl(c: char) {
    c as int < 0x20 || c as int == 0x7F
  }

  predicate NoControl(s: string) {
    forall i :: 0 <= i < |s| ==> !IsControl(s[i])
  }

  /** `\s`: space, tab, line feed, vertical tab, form feed, carriage return. */
  predicate IsWhitespace(c: char) {
    c == ' ' || c == '\t' || c == '\n' || c as int == 0x0B || c as int == 0x0C || c == '\r'
  }

  /** What `String.trim` removes: every character up to U+0020. */
  predicate IsTrimmable(c: char) {
    c as int <= 0x20
  }

  /** A word as the whitespace split produces it: non-empty, no `\s`. */
  predicate IsWord(w: string) {
    |w| > 0 && forall i :: 0 <= i < |w| ==> !IsWhitespace(w[i])
  }

  /** `replaceAll("\\p{Cntrl}", "")`. */
  function StripControl(s: string): (r: string)
    ensures NoControl(r)
    ensures |r| <= |s|
    ensures forall c :: c in s && !IsControl(c) ==> c in r
  {
    if s == [] then []
    else
      assert s == [s[0]] + s[1..];
      (if IsControl(s[0]) then [] else [s[0]]) + StripControl(s[1..])
  }

  /** Stripping works character by character: it distributes over
      concatenation, so each non-control character stays, in order. */
  lemma {:induction false} StripControlAppend(a: string, b: string)
    ensures StripControl(a + b) == StripControl(a) + StripControl(b)
  {
    if a == [] {
      assert a + b == b;
    } else {
      assert (a + b)[0] == a[0] && (a + b)[1..] == a[1..] + b;
      StripControlAppend(a[1..], b);
    }
  }

  /** Stripping removes exactly the control characters: every other
      character is kept as often as it occurs. */
  lemma {:induction false} StripControlCounts(s: string)
    ensures forall c :: multiset(StripControl(s))[c] == if IsControl(c) then 0 else multiset(s)[c]
  {
    if s != [] {
      StripControlCounts(s[1..]);
      assert s == [s[0]] + s[1..];
    }
  }

  /** A string without control characters is left as it is; in particular
      stripping twice is the same as stripping once. */
  lemma {:induction false} StripControlOfClean(s: string)
    requires NoControl(s)
    ensures StripControl(s) == s
  {
    if s != [] {
      StripControlOfClean(s[1..]);
      assert s == [s[0]] + s[1..];
    }
  }

  /** The number of characters `String.trim` removes from the front. */
  function LeadingTrimmable(s: string): (n: nat)
    ensures n <= |s|
    ensures forall i :: 0 <= i < n ==> IsTrimmable(s[i])
    ensures n < |s| ==> !IsTrimmable(s[n])
  {
    if s == [] || !IsTrimmable(s[0]) then 0 else 1 + LeadingTrimmable(s[1..])
  }

  /** The number of characters `String.trim` removes from the back. */
  function TrailingTrimmable(s: string): (n: nat)
    ensures n <= |s|
    ensures forall i :: |s| - n <= i < |s| ==> IsTrimmable(s[i])
    ensures n < |s| ==> !IsTrimmable(s[|s| - n - 1])
  {
    if s == [] || !IsTrimmable(s[|s| - 1]) then 0 else 1 + TrailingTrimmable(s[..|s| - 1])
  }

  /** `String.trim`: empty when every character is up to U+0020, otherwise
      the infix of `s` between its leading and its trailing run of such
      characters. */
  function Trim(s: string): (r: string)
    ensures r == [] <==> forall i :: 0 <= i < |s| ==> IsTrimmable(s[i])
    ensures r != [] ==>
      && LeadingTrimmable(s) < |s| - TrailingTrimmable(s)
      && r == s[LeadingTrimmable(s)..|s| - TrailingTrimmable(s)]
    ensures r == [] || (!IsTrimmable(r[0]) && !IsTrimmable(r[|r| - 1]))
    ensures NoControl(s) ==> NoControl(r)
  {
    var a, b := LeadingTrimmable(s), TrailingTrimmable(s);
    if a == |s| then []
    else
      assert a < |s| - b;
      s[a..|s| - b]
  }

  /** The length of the leading run of non-whitespace characters. */
  function WordEnd(s: string): (n: nat)
    ensures n <= |s|
    ensures forall i :: 0 <= i < n ==> !IsWhitespace(s[i])
    ensures n < |s| ==> IsWhitespace(s[n])
  {
    if s == [] || IsWhitespace(s[0]) then 0 else 1 + WordEnd(s[1..])
  }

  /** `split("\\s+")` applied to a trimmed string: the maximal runs of
      non-whitespace characters, in order. (Java returns `[""]` for the
      empty string; that empty word contributes nothing once the snippet is
      trimmed, so the empty sequence stands for it here.) */
  function Words(s: string): (ws: seq<string>)
    decreases |s|
    ensures forall i :: 0 <= i < |ws| ==> IsWord(ws[i])
    ensures NoControl(s) ==> forall i :: 0 <= i < |ws| ==> NoControl(ws[i])
  {
    if s == [] then []
    else if IsWhitespace(s[0]) then Words(s[1..])
    else
      var n := WordEnd(s);
      assert NoControl(s) ==> NoControl(s[..n]) && NoControl(s[n..]);
      [s[..n]] + Words(s[n..])
  }

  /** `String.join(" ", ws)`: begins with the first word. */
  function JoinSpaced(ws: seq<string>): (r: string)
    ensures |ws| == 0 ==> r == ""
    ensures |ws| > 0 ==> ws[0] <= r
  {
    if |ws| == 0 then ""
    else if |ws| == 1 then ws[0]
    else ws[0] + " " + JoinSpaced(ws[1..])
  }

  lemma {:induction false} WordEndOfWord(w: string, rest: string)
    requires IsWord(w)
    requires rest == [] || IsWhitespace(rest[0])
    ensures WordEnd(w + rest) == |w|
  {
    assert (w + rest)[0] == w[0];
    if |w| > 1 {
      assert (w + rest)[1..] == w[1..] + rest;
      WordEndOfWord(w[1..], rest);
    } else {
      assert (w + rest)[1..] == rest;
    }
  }

  /** A word that ends inside `a` ends at the same place whatever follows. */
  lemma {:induction false} WordEndPrefix(a: string, rest: string)
    requires WordEnd(a) < |a|
    ensures WordEnd(a + rest) == WordEnd(a)
  {
    assert (a + rest)[0] == a[0];
    if !IsWhitespace(a[0]) {
      assert (a + rest)[1..] == a[1..] + rest;
      WordEndPrefix(a[1..], rest);
    }
  }

  /** A single word splits into itself. */
  lemma WordsOfWord(w: string)
    requires IsWord(w)
    ensures Words(w) == [w]
  {
    assert w + [] == w;
    WordEndOfWord(w, []);
    assert w[..|w|] == w && w[|w|..] == [];
  }

  /** Splitting at a whitespace character splits each side separately: with
      `WordsOfWord` and `Words("") == []` this fixes the result on every
      input as the maximal runs of non-whitespace characters, in order. */
  lemma {:induction false} WordsSplitAt(a: string, c: char, b: string)
    requires IsWhitespace(c)
    ensures Words(a + [c] + b) == Words(a) + Words(b)
    decreases |a|
  {
    var s := a + [c] + b;
    if a == [] {
      assert s == [c] + b && s[1..] == b;
    } else if IsWhitespace(a[0]) {
      assert s[0] == a[0] && s[1..] == a[1..] + [c] + b;
      WordsSplitAt(a[1..], c, b);
    } else if WordEnd(a) < |a| {
      var n := WordEnd(a);
      assert s == a + ([c] + b);
      WordEndPrefix(a, [c] + b);
      assert s[0] == a[0] && s[..n] == a[..n] && s[n..] == a[n..] + [c] + b;
      WordsSplitAt(a[n..], c, b);
    } else {
      assert s == a + ([c] + b);
      WordEndOfWord(a, [c] + b);
      WordsOfWord(a);
      assert s[0] == a[0] && s[..|a|] == a && s[|a|..] == [c] + b;
      assert ([c] + b)[1..] == b;
    }
  }

  /** Splitting a joined list of words gives back the words. */
  lemma {:induction false} WordsOfJoinSpaced(ws: seq<string>)
    requires forall i :: 0 <= i < |ws| ==> IsWord(ws[i])
    ensures Words(JoinSpaced(ws)) == ws
  {
    if |ws| == 1 {
      WordEndOfWord(ws[0], []);
      assert ws[0] + [] == ws[0];
      assert ws[0][|ws[0]|..] == [];
    } else if |ws| > 1 {
      var w, u := ws[0], JoinSpaced(ws[1..]);
      var s := w + " " + u;
      assert JoinSpaced(ws) == s;
      WordEndOfWord(w, " " + u);
      assert s == w + (" " + u);
      assert s[..|w|] == w;
      assert s[|w|..] == " " + u;
      assert (" " + u)[1..] == u;
      WordsOfJoinSpaced(ws[1..]);
    }
  }

  /** Every position of a joined list of words that holds whitespace holds
      one of the separating spaces, with a non-whitespace character on each
      side: no leading or trailing whitespace and no two spaces in a row. */
  lemma {:induction false} JoinSpacedShape(ws: seq<string>)
    requires forall i :: 0 <= i < |ws| ==> IsWord(ws[i])
    ensures var r := JoinSpaced(ws);
      forall i :: 0 <= i < |r| && IsWhitespace(r[i]) ==>
        r[i] == ' ' && 0 < i < |r| - 1 && !IsWhitespace(r[i - 1]) && !IsWhitespace(r[i + 1])
    ensures |ws| > 0 ==> |JoinSpaced(ws)| > 0
  {
    if |ws| > 1 {
      var w, u := ws[0], JoinSpaced(ws[1..]);
      JoinSpacedShape(ws[1..]);
      var r := w + " " + u;
      forall i | 0 <= i < |r| && IsWhitespace(r[i])
        ensures r[i] == ' ' && 0 < i < |r| - 1 && !IsWhitespace(r[i - 1]) && !IsWhitespace(r[i + 1])
      {
        if i < |w| {
          assert false;
        } else if i == |w| {
          assert r[i - 1] == w[|w| - 1];
          assert r[i + 1] == u[0];
        } else {
          assert r[i] == u[i - |w| - 1];
          if i - |w| - 1 == 0 {
            assert false;
          }
          assert r[i - 1] == u[i - |w| - 2];
          assert r[i + 1] == u[i - |w|];
        }
      }
    }
  }

  /** A joined list starts with the first character of its first word. */
  lemma {:induction false} JoinSpacedStartsWith(ws: seq<string>, c: char)
    requires |ws| > 0 && |ws[0]| > 0 && ws[0][0] == c
    ensures |JoinSpaced(ws)| > 0 && JoinSpaced(ws)[0] == c
  {
    if |ws| > 1 {
      assert (ws[0] + " " + JoinSpaced(ws[1..]))[0] == ws[0][0];
    }
  }

  /** What a string builder holds after appending each word followed by a
      space. */
  function AppendEachSpaced(ws: seq<string>): (r: string)
    ensures ws == [] <==> r == ""
    ensures r != "" ==> r[|r| - 1] == ' '
  {
    if ws == [] then "" else AppendEachSpaced(ws[..|ws| - 1]) + ws[|ws| - 1] + " "
  }

  lemma {:induction false} JoinSpacedSnoc(ws: seq<string>, w: string)
    requires |ws| > 0
    ensures JoinSpaced(ws + [w]) == JoinSpaced(ws) + " " + w
  {
    if |ws| == 1 {
      assert ws + [w] == [ws[0], w];
      assert [ws[0], w][1..] == [w];
    } else {
      assert (ws + [w])[0] == ws[0];
      assert (ws + [w])[1..] == ws[1..] + [w];
      JoinSpacedSnoc(ws[1..], w);
    }
  }

  lemma {:induction false} AppendEachSpacedIsJoin(ws: seq<string>)
    requires |ws| > 0
    ensures AppendEachSpaced(ws) == JoinSpaced(ws) + " "
  {
    var init := ws[..|ws| - 1];
    if |ws| == 1 {
      assert init == [];
    } else {
      AppendEachSpacedIsJoin(init);
      assert ws == init + [ws[|ws| - 1]];
      JoinSpacedSnoc(init, ws[|ws| - 1]);
    }
  }

  /** A word made only of characters above U+0020. */
  predicate IsVisibleWord(w: string) {
    IsWord(w) && NoControl(w)
  }

  /** Trimming the builder's text drops exactly the final space when the
      words carry no character that `trim` would strip. */
  lemma {:induction false} TrimAppendEachSpaced(ws: seq<string>)
    requires forall i :: 0 <= i < |ws| ==> IsVisibleWord(ws[i])
    ensures Trim(AppendEachSpaced(ws)) == JoinSpaced(ws)
  {
    if ws != [] {
      AppendEachSpacedIsJoin(ws);
      var j := JoinSpaced(ws);
      JoinSpacedEnds(ws);
      var s := j + " ";
      assert s[0] == j[0] && s[|s| - 1] == ' ';
      assert s[..|s| - 1] == j;
      assert TrailingTrimmable(j) == 0;
      assert TrailingTrimmable(s) == 1;
      assert s[0..|s| - 1] == j;
    }
  }

  lemma {:induction false} JoinSpacedEnds(ws: seq<string>)
    requires |ws| > 0
    requires forall i :: 0 <= i < |ws| ==> IsVisibleWord(ws[i])
    ensures var j := JoinSpaced(ws);
      |j| > 0 && !IsTrimmable(j[0]) && !IsTrimmable(j[|j| - 1])
  {
    var w := ws[0];
    assert !IsWhitespace(w[0]) && !IsControl(w[0]);
    if |ws| > 1 {
      JoinSpacedEnds(ws[1..]);
      var u := JoinSpaced(ws[1..]);
      assert (w + " " + u)[0] == w[0];
      assert (w + " " + u)[|w + " " + u| - 1] == u[|u| - 1];
    } else {
      assert !IsWhitespace(w[|w| - 1]) && !IsControl(w[|w| - 1]);
    }
  }
}
