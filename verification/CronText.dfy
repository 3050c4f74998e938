/**
 The text handling under the cron parser: `trim`, `replace(/\s+/g, " ")`, `toLowerCase` (ASCII)
 and `split`, and the law that ties them together: an expression and its normal form consist of
 the same words.
 */
module CronText {

  /** JavaScript's white space and line terminators, the class that both `trim` and `\s` use. */
  predicate IsSpace(c: char) {
    || '\t' <= c <= '\r' || c == ' ' || c == '\U{00A0}' || c == '\U{1680}'
    || '\U{2000}' <= c <= '\U{200A}' || c == '\U{2028}' || c == '\U{2029}'
    || c == '\U{202F}' || c == '\U{205F}' || c == '\U{3000}' || c == '\U{FEFF}'
  }

  const SPACE_CODES := {9, 10, 11, 12, 13, 32, 160, 5760, 8192, 8193, 8194, 8195, 8196, 8197, 8198, 8199, 8200, 8201, 8202,
                        8232, 8233, 8239, 8287, 12288, 65279}

  lemma SpacesAre(c: char)
    ensures IsSpace(c) <==> c as int in SPACE_CODES
  {
  }

  function TrimStart(s: string): (r: string)
    ensures r == "" || !IsSpace(r[0])
    ensures |r| <= |s|
  {
    if s != "" && IsSpace(s[0]) then TrimStart(s[1..]) else s
  }

  function TrimEnd(s: string): (r: string)
    ensures r == "" || !IsSpace(r[|r| - 1])
    ensures r <= s
  {
    if s != "" && IsSpace(s[|s| - 1]) then TrimEnd(s[..|s| - 1]) else s
  }

  function Trim(s: string): string {
    TrimEnd(TrimStart(s))
  }

  predicate Blank(s: string) {
    forall i :: 0 <= i < |s| ==> IsSpace(s[i])
  }

  lemma BlankParts(a: string)
    requires a != "" && Blank(a)
    ensures IsSpace(a[0]) && Blank(a[1..]) && IsSpace(a[|a| - 1]) && Blank(a[..|a| - 1])
  {
  }

  lemma TrimStartStep(s: string)
    requires s != "" && IsSpace(s[0])
    ensures TrimStart(s) == TrimStart(s[1..])
  {
  }

  lemma TrimEndStep(s: string)
    requires s != "" && IsSpace(s[|s| - 1])
    ensures TrimEnd(s) == TrimEnd(s[..|s| - 1])
  {
  }

  lemma TailConcat<T>(a: seq<T>, b: seq<T>)
    requires a != []
    ensures (a + b)[0] == a[0] && (a + b)[1..] == a[1..] + b
  {
  }

  lemma FrontConcat<T>(a: seq<T>, b: seq<T>)
    requires b != []
    ensures (a + b)[|a + b| - 1] == b[|b| - 1] && (a + b)[..|a + b| - 1] == a + b[..|b| - 1]
  {
  }

  lemma {:induction false} TrimStartBlank(a: string, s: string)
    requires Blank(a)
    ensures TrimStart(a + s) == TrimStart(s)
  {
    if a == "" {
      assert a + s == s;
    } else {
      BlankParts(a);
      TrimStartBlank(a[1..], s);
      TailConcat(a, s);
      TrimStartStep(a + s);
    }
  }

  lemma {:induction false} TrimEndBlank(s: string, b: string)
    requires Blank(b)
    ensures TrimEnd(s + b) == TrimEnd(s)
    decreases |b|
  {
    if b == "" {
      assert s + b == s;
    } else {
      BlankParts(b);
      TrimEndBlank(s, b[..|b| - 1]);
      FrontConcat(s, b);
      TrimEndStep(s + b);
    }
  }

  /** Trimming removes the white space at both ends and nothing else. */
  lemma TrimExactly(a: string, s: string, b: string)
    requires Blank(a) && Blank(b)
    ensures s != "" && !IsSpace(s[0]) && !IsSpace(s[|s| - 1]) ==> Trim(a + s + b) == s
  {
    if s != "" && !IsSpace(s[0]) && !IsSpace(s[|s| - 1]) {
      assert a + s + b == a + (s + b);
      TrimStartBlank(a, s + b);
      assert (s + b)[0] == s[0];
      TrimEndBlank(s, b);
    }
  }

  lemma TrimBlank(a: string)
    requires Blank(a)
    ensures Trim(a) == ""
  {
    TrimStartBlank(a, "");
    assert a + "" == a;
  }

  /** Every run of white space becomes one blank. */
  function Collapse(s: string): string
    decreases |s|
  {
    if s == "" then ""
    else if IsSpace(s[0]) then " " + Collapse(TrimStart(s[1..]))
    else [s[0]] + Collapse(s[1..])
  }

  function LowerChar(c: char): char {
    if 'A' <= c <= 'Z' then (c as int + 32) as char else c
  }

  const UPPER_CASE := "ABCDEFGHIJKLMNOPQRSTUVWXYZ"
  const LOWER_CASE := "abcdefghijklmnopqrstuvwxyz"

  /** The capital letters become the small ones, and every other character stays. */
  lemma LettersLowered(c: char)
    ensures forall i :: 0 <= i < |UPPER_CASE| ==> LowerChar(UPPER_CASE[i]) == LOWER_CASE[i]
    ensures c !in UPPER_CASE ==> LowerChar(c) == c
  {
    if 'A' <= c <= 'Z' {
      assert UPPER_CASE[c as int - 'A' as int] == c;
    }
  }

  function Lower(s: string): (r: string)
    ensures |r| == |s| && forall i :: 0 <= i < |s| ==> r[i] == LowerChar(s[i])
  {
    seq(|s|, i requires 0 <= i < |s| => LowerChar(s[i]))
  }

  function LowerAll(ws: seq<string>): (r: seq<string>)
    ensures |r| == |ws| && forall i :: 0 <= i < |ws| ==> r[i] == Lower(ws[i])
  {
    seq(|ws|, i requires 0 <= i < |ws| => Lower(ws[i]))
  }

  /** `s.split(c)`: always at least one piece, and no piece contains the separator. */
  function Split(s: string, c: char): (r: seq<string>)
    ensures |r| >= 1
    ensures forall i :: 0 <= i < |r| ==> c !in r[i]
  {
    if s == "" then [""]
    else
      var rest := Split(s[1..], c);
      if s[0] == c then [""] + rest else [[s[0]] + rest[0]] + rest[1..]
  }

  function Join(ws: seq<string>): string {
    if ws == [] then ""
    else if |ws| == 1 then ws[0]
    else ws[0] + " " + Join(ws[1..])
  }

  predicate IsWord(w: string) {
    w != "" && forall i :: 0 <= i < |w| ==> !IsSpace(w[i])
  }

  /** The maximal runs of characters that are not white space, in order. */
  function Words(s: string): (r: seq<string>)
    ensures forall i :: 0 <= i < |r| ==> IsWord(r[i])
    ensures s != "" && !IsSpace(s[0]) ==> r != []
  {
    if s == "" then []
    else
      var rest := Words(s[1..]);
      if IsSpace(s[0]) then rest
      else if |s| == 1 || IsSpace(s[1]) then [[s[0]]] + rest
      else [[s[0]] + rest[0]] + rest[1..]
  }

  // ---------- normal form ----------

  lemma {:induction false} WordsTrimStart(s: string)
    ensures Words(TrimStart(s)) == Words(s)
  {
    if s != "" && IsSpace(s[0]) {
      WordsTrimStart(s[1..]);
    }
  }

  lemma {:induction false} WordsTrailingSpace(s: string, c: char)
    requires IsSpace(c)
    ensures Words(s + [c]) == Words(s)
  {
    if s == "" {
      assert Words([c]) == Words([c][1..]);
    } else {
      WordsTrailingSpace(s[1..], c);
      assert (s + [c])[1..] == s[1..] + [c];
    }
  }

  lemma {:induction false} WordsTrimEnd(s: string)
    ensures Words(TrimEnd(s)) == Words(s)
  {
    if s != "" && IsSpace(s[|s| - 1]) {
      WordsTrimEnd(s[..|s| - 1]);
      WordsTrailingSpace(s[..|s| - 1], s[|s| - 1]);
      assert s[..|s| - 1] + [s[|s| - 1]] == s;
    }
  }

  lemma JoinCons(w: string, ws: seq<string>)
    requires ws != []
    ensures Join([w] + ws) == w + " " + Join(ws)
  {
    assert ([w] + ws)[1..] == ws;
  }

  lemma JoinLetter(c: char, ws: seq<string>)
    requires ws != []
    ensures Join([[c] + ws[0]] + ws[1..]) == [c] + Join(ws)
  {
    var longer := [[c] + ws[0]] + ws[1..];
    assert longer[1..] == ws[1..];
    if |ws| > 1 {
      assert [c] + (ws[0] + " " + Join(ws[1..])) == [c] + ws[0] + " " + Join(ws[1..]);
    }
  }

  lemma WordThenGap(s: string)
    requires |s| > 1 && !IsSpace(s[0]) && IsSpace(s[1])
    ensures Collapse(s) == [s[0]] + (" " + Collapse(TrimStart(s[1..])))
    ensures Words(s) == [[s[0]]] + Words(TrimStart(s[1..]))
  {
    var gap := s[1..];
    assert TrimStart(gap) == TrimStart(gap[1..]);
    WordsTrimStart(gap);
  }

  lemma JoinWordGap(s: string, ws: seq<string>, tail: string)
    requires s != "" && ws != [] && tail == Join(ws)
    ensures Join([[s[0]]] + ws) == [s[0]] + (" " + tail)
  {
    JoinCons([s[0]], ws);
    assert [s[0]] + (" " + tail) == [s[0]] + " " + tail;
  }

  lemma {:induction false} CollapseTrimmed(s: string)
    requires s != "" && !IsSpace(s[0]) && !IsSpace(s[|s| - 1])
    ensures Collapse(s) == Join(Words(s))
    decreases |s|
  {
    if |s| == 1 {
      assert s[1..] == "";
      assert s == [s[0]];
    } else if IsSpace(s[1]) {
      SkipsToWord(s[1..]);
      WordThenGap(s);
      var rest := TrimStart(s[1..]);
      CollapseTrimmed(rest);
      JoinWordGap(s, Words(rest), Collapse(rest));
    } else {
      var rest := s[1..];
      CollapseTrimmed(rest);
      JoinLetter(s[0], Words(rest));
      assert Collapse(s) == [s[0]] + Collapse(rest);
    }
  }

  lemma {:induction false} SkipsToWord(s: string)
    requires s != "" && !IsSpace(s[|s| - 1])
    ensures TrimStart(s) != "" && TrimStart(s)[|TrimStart(s)| - 1] == s[|s| - 1]
  {
    if IsSpace(s[0]) {
      SkipsToWord(s[1..]);
    }
  }

  /** `trim` followed by the white-space replacement joins the words with single blanks. */
  lemma NormalIsJoinedWords(s: string)
    ensures Collapse(Trim(s)) == Join(Words(s))
  {
    WordsTrimStart(s);
    WordsTrimEnd(TrimStart(s));
    var t := Trim(s);
    if t != "" {
      assert t[0] == TrimStart(s)[0];
      CollapseTrimmed(t);
    }
  }

  lemma {:induction false} WordsOfWord(w: string)
    requires IsWord(w)
    ensures Words(w) == [w]
  {
    if |w| > 1 {
      WordsOfWord(w[1..]);
      assert [w[0]] + w[1..] == w;
    } else {
      assert w == [w[0]];
      assert w[1..] == "";
    }
  }

  lemma {:induction false} WordsPrefix(w: string, rest: string)
    requires IsWord(w)
    ensures Words(w + " " + rest) == [w] + Words(rest)
  {
    var s := w + " " + rest;
    if |w| == 1 {
      assert s[1..] == " " + rest;
      assert (" " + rest)[1..] == rest;
      assert [s[0]] == w;
    } else {
      WordsPrefix(w[1..], rest);
      assert s[1..] == w[1..] + " " + rest;
      assert [w[0]] + w[1..] == w;
    }
  }

  lemma {:induction false} WordsOfJoin(ws: seq<string>)
    requires forall i :: 0 <= i < |ws| ==> IsWord(ws[i])
    ensures Words(Join(ws)) == ws
  {
    if |ws| == 1 {
      WordsOfWord(ws[0]);
    } else if |ws| > 1 {
      WordsOfJoin(ws[1..]);
      WordsPrefix(ws[0], Join(ws[1..]));
    }
  }

  lemma {:induction false} SplitPlain(w: string, c: char)
    requires c !in w
    ensures Split(w, c) == [w]
  {
    if w != "" {
      SplitPlain(w[1..], c);
      assert [w[0]] + w[1..] == w;
    }
  }

  lemma {:induction false} SplitPrefix(w: string, rest: string, c: char)
    requires c !in w
    ensures Split(w + [c] + rest, c) == [w] + Split(rest, c)
  {
    var s := w + [c] + rest;
    if w == "" {
      assert s[1..] == rest;
    } else {
      SplitPrefix(w[1..], rest, c);
      assert s[1..] == w[1..] + [c] + rest;
      assert [w[0]] + w[1..] == w;
    }
  }

  /** Splitting at blanks undoes the joining. */
  lemma {:induction false} SplitOfJoin(ws: seq<string>)
    requires ws != [] && forall i :: 0 <= i < |ws| ==> IsWord(ws[i])
    ensures Split(Join(ws), ' ') == ws
  {
    assert ' ' !in ws[0];
    if |ws| == 1 {
      SplitPlain(ws[0], ' ');
    } else {
      SplitOfJoin(ws[1..]);
      SplitPrefix(ws[0], Join(ws[1..]), ' ');
    }
  }

  lemma LowerConcat(a: string, b: string)
    ensures Lower(a + b) == Lower(a) + Lower(b)
  {
  }

  lemma {:induction false} LowerOfJoin(ws: seq<string>)
    ensures Lower(Join(ws)) == Join(LowerAll(ws))
  {
    if |ws| > 1 {
      LowerOfJoin(ws[1..]);
      assert LowerAll(ws)[1..] == LowerAll(ws[1..]);
      LowerConcat(ws[0] + " ", Join(ws[1..]));
      LowerConcat(ws[0], " ");
      assert Lower(" ") == " ";
    }
  }

  lemma LowerKeepsWords(ws: seq<string>)
    requires forall i :: 0 <= i < |ws| ==> IsWord(ws[i])
    ensures forall i :: 0 <= i < |ws| ==> IsWord(LowerAll(ws)[i])
  {
  }

  lemma LowerTwice(s: string)
    ensures Lower(Lower(s)) == Lower(s)
  {
  }

  lemma LowerCons(d: char, s: string)
    ensures Lower([d] + s) == [LowerChar(d)] + Lower(s)
  {
  }

  lemma LowerAllLonger(d: char, rest: seq<string>)
    requires rest != []
    ensures LowerAll([""] + rest) == [""] + LowerAll(rest)
    ensures LowerAll([[d] + rest[0]] + rest[1..]) == [[LowerChar(d)] + Lower(rest[0])] + LowerAll(rest)[1..]
  {
    assert Lower("") == "";
    LowerCons(d, rest[0]);
  }

  lemma {:induction false} SplitLower(s: string, c: char)
    requires LowerChar(c) == c && !('a' <= c <= 'z')
    ensures Split(Lower(s), c) == LowerAll(Split(s, c))
  {
    if s == "" {
      assert Lower(s) == "" && LowerAll([""]) == [""];
    } else {
      SplitLower(s[1..], c);
      assert Lower(s)[1..] == Lower(s[1..]);
      LowerAllLonger(s[0], Split(s[1..], c));
    }
  }

  lemma {:induction false} TrimWord(w: string)
    requires IsWord(w)
    ensures Trim(w) == w
  {
  }
}
