/** `buildCommit` (index.js:116-140): the pure mapping from the collected
    answers to the commit message `head + "\n\n" + body + "\n\n" + footer`. */
module Formatter {
  import opened Wrappers
  import opened JsString
  import opened ChangeType

  /** `maxLineWidth`: the head is cut at this many characters. */
  const MaxLineWidth: nat := 100

  /** The answers the prompt collects; `confirmCommit` is kept as the raw
      choice value because the handler compares it with `"yes"`. */
  datatype Answers = Answers(
    changeType: Type,
    scope: string,
    subject: string,
    body: string,
    footer: string,
    confirmCommit: string)

  /** The scope as the head shows it: trimmed and parenthesised, or nothing
      when it is blank. */
  function ScopePart(scope: string): string {
    if Trim(scope) == [] then "" else "(" + Trim(scope) + ")"
  }

  /** The head line before the hard limit. */
  function FullHead(a: Answers): string {
    Tag(a.changeType) + ScopePart(a.scope) + ": " + Trim(a.subject)
  }

  /** The head line: at most `MaxLineWidth` characters, cut from the start of
      the full head with nothing appended. */
  function Head(a: Answers): (r: string)
    ensures |r| <= MaxLineWidth && r <= FullHead(a)
    ensures |FullHead(a)| <= MaxLineWidth ==> r == FullHead(a)
    ensures |FullHead(a)| > MaxLineWidth ==> r == FullHead(a)[..MaxLineWidth]
  {
    SliceTo(FullHead(a), MaxLineWidth)
  }

  /** The message: the head, a blank line, the wrapped body, a blank line,
      the wrapped footer. `wrap` stands for the `word-wrap` call with the
      fixed options of index.js:119-124. */
  function BuildCommit(a: Answers, wrap: string -> string): (r: string)
    ensures |r| == |Head(a)| + |wrap(a.body)| + |wrap(a.footer)| + 4
    ensures r[..|Head(a)| + 2] == Head(a) + "\n\n"
    ensures r[|Head(a)| + 2..|r| - |wrap(a.footer)| - 2] == wrap(a.body)
    ensures r[|r| - |wrap(a.footer)| - 2..] == "\n\n" + wrap(a.footer)
  {
    var h, b, f := Head(a), wrap(a.body), wrap(a.footer);
    var r := h + "\n\n" + b + "\n\n" + f;
    assert r[..|h| + 2] == h + "\n\n";
    assert r[|h| + 2..|r| - |f| - 2] == b;
    assert r[|r| - |f| - 2..] == "\n\n" + f;
    r
  }

  /** The two shapes of the full head, by whether the trimmed scope is empty. */
  lemma ScopeShapes(a: Answers)
    ensures Trim(a.scope) == [] ==> FullHead(a) == Tag(a.changeType) + ": " + Trim(a.subject)
    ensures Trim(a.scope) != [] ==>
      FullHead(a) == Tag(a.changeType) + "(" + Trim(a.scope) + ")" + ": " + Trim(a.subject)
  {
  }

  /** The head always starts with the type tag, and the character right after
      it is `(` exactly when the trimmed scope is non-empty (otherwise `:`). */
  lemma HeadStartsWithTag(a: Answers)
    ensures |Tag(a.changeType)| < |Head(a)|
    ensures Head(a)[..|Tag(a.changeType)|] == Tag(a.changeType)
    ensures Head(a)[|Tag(a.changeType)|] == '(' <==> Trim(a.scope) != []
    ensures Head(a)[|Tag(a.changeType)|] == ':' <==> Trim(a.scope) == []
  {
    var t, full := Tag(a.changeType), FullHead(a);
    assert full == t + (ScopePart(a.scope) + ": " + Trim(a.subject));
    assert |full| >= |t| + 2;
    assert Head(a)[..|t|] == full[..|t|];
    assert Head(a)[|t|] == full[|t|];
  }

  /** With a blank scope and no parenthesis in the subject, the head holds no
      parenthesis at all. */
  lemma NoParensWithoutScope(a: Answers)
    requires Trim(a.scope) == []
    requires '(' !in a.subject && ')' !in a.subject
    ensures '(' !in Head(a) && ')' !in Head(a)
  {
    var t, sub := Tag(a.changeType), Trim(a.subject);
    var full, h := FullHead(a), Head(a);
    assert full == t + ": " + sub;
    TrimChars(a.subject);
    forall k | 0 <= k < |h| ensures h[k] != '(' && h[k] != ')' {
      assert h[k] == full[k];
      if k < |t| {
        assert IsLowerLetter(t[k]);
      } else if k >= |t| + 2 {
        assert full[k] == sub[k - |t| - 2];
        assert sub[k - |t| - 2] in a.subject;
      }
    }
  }

  // ---------------------------------------------------------------------
  // Reading a head back: the inverse of the formatter on heads the hard
  // limit did not cut.

  /** The components a head encodes. */
  datatype HeadParts = HeadParts(changeType: Type, scope: string, subject: string)

  /** The length of the run of lower-case letters that starts `s`. */
  function LetterRun(s: string): (n: nat)
    ensures n <= |s|
    ensures forall k :: 0 <= k < n ==> IsLowerLetter(s[k])
    ensures n == |s| || !IsLowerLetter(s[n])
  {
    if |s| > 0 && IsLowerLetter(s[0]) then 1 + LetterRun(s[1..]) else 0
  }

  /** The index of the first `c` in `s`, or `|s|` when there is none. */
  function IndexOf(s: string, c: char): (n: nat)
    ensures n <= |s|
    ensures n < |s| ==> s[n] == c
    ensures forall k :: 0 <= k < n ==> s[k] != c
  {
    if |s| == 0 then 0 else if s[0] == c then 0 else 1 + IndexOf(s[1..], c)
  }

  /** The change type named by the leading word of a head. */
  function ParseType(h: string): Option<Type> {
    FromTag(h[..LetterRun(h)])
  }

  /** Splits what follows the tag: `": " + subject`, or
      `"(" + scope + "): " + subject` with the scope ending at the first `)`. */
  function ParseRest(rest: string): Option<(string, string)> {
    if |rest| >= 2 && rest[..2] == ": " then
      Some(("", rest[2..]))
    else if |rest| >= 1 && rest[0] == '(' then
      var j := IndexOf(rest, ')');
      if j + 3 <= |rest| && rest[j..j + 3] == "): " then Some((rest[1..j], rest[j + 3..]))
      else None
    else None
  }

  /** Reads a head back into type, scope and subject. */
  function ParseHead(h: string): Option<HeadParts> {
    var n := LetterRun(h);
    match (FromTag(h[..n]), ParseRest(h[n..]))
    case (Some(t), Some((sc, sub))) => Some(HeadParts(t, sc, sub))
    case _ => None
  }

  lemma {:induction false} LetterRunAfterWord(w: string, x: string)
    requires forall k :: 0 <= k < |w| ==> IsLowerLetter(w[k])
    requires x == [] || !IsLowerLetter(x[0])
    ensures LetterRun(w + x) == |w|
  {
    if w != [] {
      assert (w + x)[1..] == w[1..] + x;
      LetterRunAfterWord(w[1..], x);
    }
  }

  lemma {:induction false} IndexOfAfter(x: string, y: string, c: char)
    requires c !in x
    ensures IndexOf(x + y, c) == |x| + IndexOf(y, c)
  {
    if x == [] {
      assert x + y == y;
    } else {
      assert x[0] != c;
      assert (x + y)[0] == x[0];
      assert (x + y)[1..] == x[1..] + y;
      IndexOfAfter(x[1..], y, c);
    }
  }

  /** The leading word of the full head is the tag, so the type reads back. */
  lemma FullHeadType(a: Answers)
    ensures LetterRun(FullHead(a)) == |Tag(a.changeType)|
  {
    var t := Tag(a.changeType);
    var x := ScopePart(a.scope) + ": " + Trim(a.subject);
    assert FullHead(a) == t + x;
    LetterRunAfterWord(t, x);
  }

  /** The type can be read back from every head, cut or not. */
  lemma ParseTypeHead(a: Answers)
    ensures ParseType(Head(a)) == Some(a.changeType)
  {
    var t := Tag(a.changeType);
    HeadStartsWithTag(a);
    var h := Head(a);
    assert h == t + h[|t|..];
    LetterRunAfterWord(t, h[|t|..]);
    FromTagTag(a.changeType);
  }

  /** A head is read as its tag followed by the rest. */
  lemma ParseAfterTag(t: Type, rest: string)
    requires rest == [] || !IsLowerLetter(rest[0])
    ensures ParseHead(Tag(t) + rest) ==
      match ParseRest(rest)
      case Some((sc, sub)) => Some(HeadParts(t, sc, sub))
      case None => None
  {
    var h := Tag(t) + rest;
    LetterRunAfterWord(Tag(t), rest);
    FromTagTag(t);
    assert h[..|Tag(t)|] == Tag(t);
    assert h[|Tag(t)|..] == rest;
  }

  /** A scope that holds no `)` is read back whole. */
  lemma ParseRestScope(sc: string, sub: string)
    requires ')' !in sc
    ensures ParseRest("(" + sc + ")" + ": " + sub) == Some((sc, sub))
  {
    var rest := "(" + sc + ("): " + sub);
    assert rest == "(" + sc + ")" + ": " + sub;
    IndexOfAfter("(" + sc, "): " + sub, ')');
    assert IndexOf(rest, ')') == 1 + |sc|;
    assert rest[1..1 + |sc|] == sc;
    assert rest[1 + |sc|..1 + |sc| + 3] == "): ";
    assert rest[1 + |sc| + 3..] == sub;
  }

  /** Round trip: a head the limit did not cut gives back the type, the
      trimmed scope and the trimmed subject, provided the scope holds no `)`. */
  lemma ParseHeadRoundTrip(a: Answers)
    requires |FullHead(a)| <= MaxLineWidth
    requires ')' !in a.scope
    ensures ParseHead(Head(a)) == Some(HeadParts(a.changeType, Trim(a.scope), Trim(a.subject)))
  {
    var sc, sub := Trim(a.scope), Trim(a.subject);
    assert Head(a) == FullHead(a);
    var rest := ScopePart(a.scope) + ": " + sub;
    assert FullHead(a) == Tag(a.changeType) + rest;
    if sc == [] {
      assert rest[..2] == ": " && rest[2..] == sub;
    } else {
      TrimChars(a.scope);
      ParseRestScope(sc, sub);
    }
    ParseAfterTag(a.changeType, rest);
  }

  /** When neither scope nor subject holds a line feed, the first line of the
      message is exactly the head. */
  lemma FirstLineIsHead(a: Answers, wrap: string -> string)
    requires '\n' !in a.scope && '\n' !in a.subject
    ensures var m := BuildCommit(a, wrap); m[..IndexOf(m, '\n')] == Head(a)
  {
    var m, h := BuildCommit(a, wrap), Head(a);
    var full := FullHead(a);
    forall k | 0 <= k < |full| ensures full[k] != '\n' {
      var t, sp, sub := Tag(a.changeType), ScopePart(a.scope), Trim(a.subject);
      assert full == t + sp + ": " + sub;
      if k < |t| {
        assert IsLowerLetter(t[k]);
      } else if k < |t| + |sp| {
        var c := sp[k - |t|];
        assert c == full[k];
        TrimChars(a.scope);
      } else if k >= |t| + |sp| + 2 {
        var c := sub[k - |t| - |sp| - 2];
        assert c == full[k];
        TrimChars(a.subject);
      }
    }
    assert '\n' !in h by {
      forall k | 0 <= k < |h| ensures h[k] != '\n' { assert h[k] == full[k]; }
    }
    assert m == h + ("\n\n" + wrap(a.body) + "\n\n" + wrap(a.footer));
    IndexOfAfter(h, "\n\n" + wrap(a.body) + "\n\n" + wrap(a.footer), '\n');
  }
}
