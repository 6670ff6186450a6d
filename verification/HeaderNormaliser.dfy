/**
 The normaliser behind the public-API header fingerprints: comments become one space, string and
 character literals are kept, whitespace runs collapse to one space.
 */
module HeaderNormaliser {
  import opened PythonText

  datatype Mode = Code | LineComment | BlockComment | Literal(quote: char)

  predicate IsQuote(c: char) { c == '"' || c == '\'' }

  predicate IsNewline(c: char) { c == '\r' || c == '\n' }

  predicate Opens(s: string, second: char) { |s| > 1 && s[0] == '/' && s[1] == second }

  predicate Closes(s: string) { |s| > 1 && s[0] == '*' && s[1] == '/' }

  predicate Escapes(s: string) { |s| > 1 && s[0] == '\\' }

  datatype Step = Step(emit: string, mode: Mode, advance: nat)

  /** One iteration of the scanner at the front of a non-empty rest. */
  function Scan(mode: Mode, s: string): (step: Step)
    requires s != []
    ensures 1 <= step.advance <= |s|
  {
    match mode
    case LineComment => if IsNewline(s[0]) then Step([' '], Code, 1) else Step([], LineComment, 1)
    case BlockComment => if Closes(s) then Step([' '], Code, 2) else Step([], BlockComment, 1)
    case Literal(q) =>
      if Escapes(s) then Step(s[..2], mode, 2) else Step([s[0]], if s[0] == q then Code else mode, 1)
    case Code =>
      if Opens(s, '/') then Step([], LineComment, 2)
      else if Opens(s, '*') then Step([], BlockComment, 2)
      else Step([s[0]], if IsQuote(s[0]) then Literal(s[0]) else Code, 1)
  }

  /** Everything the scanner appends to its output from here on. */
  function Strip(mode: Mode, s: string): string
    decreases |s|
  {
    if s == [] then [] else
    var step := Scan(mode, s);
    step.emit + Strip(step.mode, s[step.advance..])
  }

  // --- " ".join(text.split()) ------------------------------------------------------------------

  function SkipSpaces(s: string): (r: string)
    ensures |r| <= |s| && (r != [] ==> !IsSpace(r[0])) && (s != [] && IsSpace(s[0]) ==> |r| < |s|)
  {
    if s != [] && IsSpace(s[0]) then SkipSpaces(s[1..]) else s
  }

  function WordLength(s: string): (n: nat)
    ensures n <= |s| && (s != [] && !IsSpace(s[0]) ==> n > 0)
  {
    if s == [] || IsSpace(s[0]) then 0 else 1 + WordLength(s[1..])
  }

  function Split(s: string): seq<string>
    decreases |s|
  {
    var r := SkipSpaces(s);
    if r == [] then [] else [r[..WordLength(r)]] + Split(r[WordLength(r)..])
  }

  function Join(words: seq<string>): string {
    if words == [] then [] else if |words| == 1 then words[0] else words[0] + [' '] + Join(words[1..])
  }

  function Normalise(text: string): string { Join(Split(Strip(Code, text))) }

  lemma ConcatAssociates(a: string, b: string, c: string)
    ensures a + (b + c) == (a + b) + c
  {
  }

  /** The body of the scanner loop: what it appends, the next state and how far it advances. */
  method ScanAt(text: string, index: nat, mode: Mode) returns (step: Step)
    requires index < |text|
    ensures step == Scan(mode, text[index..])
  {
    var c := text[index];
    var more := index + 1 < |text|;
    var following := if more then text[index + 1] else c;
    ghost var rest := text[index..];
    assert more ==> rest[1] == following && rest[..2] == [c, following];
    match mode {
      case LineComment =>
        step := if IsNewline(c) then Step([' '], Code, 1) else Step([], LineComment, 1);
      case BlockComment =>
        step := if c == '*' && more && following == '/' then Step([' '], Code, 2) else Step([], BlockComment, 1);
      case Literal(quote) =>
        if c == '\\' && more {
          step := Step([c, following], mode, 2);
        } else {
          step := Step([c], if c == quote then Code else mode, 1);
        }
      case Code =>
        if c == '/' && more && following == '/' {
          step := Step([], LineComment, 2);
        } else if c == '/' && more && following == '*' {
          step := Step([], BlockComment, 2);
        } else {
          step := Step([c], if IsQuote(c) then Literal(c) else Code, 1);
        }
    }
  }

  lemma StripStep(mode: Mode, text: string, index: nat)
    requires index < |text|
    ensures var step := Scan(mode, text[index..]);
      index + step.advance <= |text|
      && Strip(mode, text[index..]) == step.emit + Strip(step.mode, text[index + step.advance..])
  {
    var step := Scan(mode, text[index..]);
    assert text[index..][step.advance..] == text[index + step.advance..];
  }

  /** The scanner loop over index, state, quote and output. */
  method NormalizeCppPublicSurface(text: string) returns (normalized: string)
    ensures normalized == Normalise(text)
  {
    var output: string := [];
    var index, mode := 0, Code;
    assert text[0..] == text && output + Strip(Code, text) == Strip(Code, text);
    while index < |text|
      invariant 0 <= index <= |text|
      invariant output + Strip(mode, text[index..]) == Strip(Code, text)
      decreases |text| - index
    {
      var step := ScanAt(text, index, mode);
      StripStep(mode, text, index);
      ConcatAssociates(output, step.emit, Strip(step.mode, text[index + step.advance..]));
      output := output + step.emit;
      index, mode := index + step.advance, step.mode;
    }
    assert output + [] == output;
    normalized := Join(Split(output));
  }

  // --- Idempotence -----------------------------------------------------------------------------

  /** A comment-free text: the scanner would copy it, starting in `mode`. */
  predicate Clean(mode: Mode, s: string)
    decreases |s|
  {
    if s == [] then true
    else match mode
      case Code => !Opens(s, '/') && !Opens(s, '*') && Clean(if IsQuote(s[0]) then Literal(s[0]) else Code, s[1..])
      case Literal(q) =>
        if Escapes(s) then Clean(mode, s[2..]) else Clean(if s[0] == q then Code else mode, s[1..])
      case _ => false
  }

  lemma {:induction false} CleanIsKept(mode: Mode, s: string)
    requires Clean(mode, s) && (mode.Code? || (mode.Literal? && IsQuote(mode.quote)))
    ensures Strip(mode, s) == s
    decreases |s|
  {
    if s != [] {
      if mode.Literal? && Escapes(s) {
        CleanIsKept(mode, s[2..]);
      } else if mode.Literal? {
        CleanIsKept(if s[0] == mode.quote then Code else mode, s[1..]);
      } else {
        CleanIsKept(if IsQuote(s[0]) then Literal(s[0]) else Code, s[1..]);
      }
    }
  }

  /** Where a copy of the output would be scanned from. */
  function Resumed(mode: Mode): Mode { if mode.Literal? then mode else Code }

  lemma CommentStepIsClean(mode: Mode, s: string, out: string)
    requires s != [] && (mode.LineComment? || mode.BlockComment?)
    requires Clean(Resumed(Scan(mode, s).mode), out)
    ensures Clean(Code, Scan(mode, s).emit + out)
  {
    var emit := Scan(mode, s).emit;
    if emit == [] { assert emit + out == out; } else { assert (emit + out)[1..] == out; }
  }

  lemma LiteralStepIsClean(mode: Mode, s: string, out: string)
    requires s != [] && mode.Literal?
    requires Clean(Resumed(Scan(mode, s).mode), out)
    requires s == ['\\'] ==> out == []
    ensures Clean(mode, Scan(mode, s).emit + out)
  {
    var emit := Scan(mode, s).emit;
    assert (emit + out)[|emit|..] == out;
  }

  /** In code, a slash that opens nothing is followed in the output by what followed it. */
  lemma CodeStepIsClean(s: string, out: string)
    requires s != [] && Clean(Resumed(Scan(Code, s).mode), out)
    requires s[0] == '/' && out != [] && !Opens(s, '/') && !Opens(s, '*') ==> |s| > 1 && out[0] == s[1]
    ensures Clean(Code, Scan(Code, s).emit + out)
  {
    var emit := Scan(Code, s).emit;
    if emit == [] { assert emit + out == out; } else { assert (emit + out)[1..] == out; }
  }

  lemma {:induction false} StripIsClean(mode: Mode, s: string)
    ensures Clean(Resumed(mode), Strip(mode, s))
    decreases |s|
  {
    if s != [] {
      var step := Scan(mode, s);
      var out := Strip(step.mode, s[step.advance..]);
      StripIsClean(step.mode, s[step.advance..]);
      match mode
      case LineComment => CommentStepIsClean(mode, s, out);
      case BlockComment => CommentStepIsClean(mode, s, out);
      case Literal(_) => LiteralStepIsClean(mode, s, out);
      case Code => CodeStepIsClean(s, out);
    }
  }

  /** Whitespace collapsing one character at a time, after a word character. */
  function Squeeze(s: string): string
    decreases |s|
  {
    if s == [] then []
    else if !IsSpace(s[0]) then [s[0]] + Squeeze(s[1..])
    else if SkipSpaces(s) == [] then []
    else [' '] + Squeeze(SkipSpaces(s))
  }

  function Collapse(s: string): string { Squeeze(SkipSpaces(s)) }

  lemma {:induction false} SqueezeKeepsWord(s: string)
    ensures Squeeze(s) == s[..WordLength(s)] + Squeeze(s[WordLength(s)..])
  {
    if s != [] && !IsSpace(s[0]) {
      SqueezeKeepsWord(s[1..]);
      assert s[1..][WordLength(s[1..])..] == s[WordLength(s)..];
      assert [s[0]] + s[1..][..WordLength(s[1..])] == s[..WordLength(s)];
    }
  }

  lemma {:induction false} WordEnds(s: string)
    ensures s[WordLength(s)..] == [] || IsSpace(s[WordLength(s)..][0])
  {
    if s != [] && !IsSpace(s[0]) {
      WordEnds(s[1..]);
      assert s[1..][WordLength(s[1..])..] == s[WordLength(s)..];
    }
  }

  lemma JoinFront(word: string, words: seq<string>)
    ensures Join([word] + words) == if words == [] then word else word + [' '] + Join(words)
  {
    assert ([word] + words)[1..] == words;
  }

  lemma SqueezeOfGap(rest: string)
    requires rest == [] || IsSpace(rest[0])
    ensures Squeeze(rest) == if SkipSpaces(rest) == [] then [] else [' '] + Collapse(rest)
  {
  }

  lemma Spaced(word: string, gap: string, tail: string)
    requires gap == [] || gap == [' '] + tail
    ensures word + gap == if gap == [] then word else word + [' '] + tail
  {
    ConcatAssociates(word, [' '], tail);
  }

  /** Collapsing word by word. */
  lemma CollapseFront(r: string)
    requires r != [] && !IsSpace(r[0])
    ensures var word, rest := r[..WordLength(r)], r[WordLength(r)..];
      Squeeze(r) == if SkipSpaces(rest) == [] then word else word + [' '] + Collapse(rest)
  {
    var word, rest := r[..WordLength(r)], r[WordLength(r)..];
    SqueezeKeepsWord(r);
    WordEnds(r);
    SqueezeOfGap(rest);
    Spaced(word, Squeeze(rest), Collapse(rest));
  }

  /** Splitting into words and joining with single spaces is the one-pass collapse. */
  lemma {:induction false} JoinSplitIsCollapse(s: string)
    ensures Join(Split(s)) == Collapse(s)
    decreases |s|
  {
    var r := SkipSpaces(s);
    if r != [] {
      var word, rest := r[..WordLength(r)], r[WordLength(r)..];
      CollapseFront(r);
      JoinSplitIsCollapse(rest);
      JoinFront(word, Split(rest));
      assert Split(s) == [word] + Split(rest);
    }
  }

  lemma {:induction false} SkippingKeepsClean(mode: Mode, s: string)
    requires Clean(mode, s) && (mode.Literal? ==> IsQuote(mode.quote))
    ensures Clean(mode, SkipSpaces(s))
    decreases |s|
  {
    if s != [] && IsSpace(s[0]) { SkippingKeepsClean(mode, s[1..]); }
  }

  /** Collapsing whitespace neither creates a comment nor moves the end of a literal. */
  lemma {:induction false} SqueezeKeepsClean(mode: Mode, s: string)
    requires Clean(mode, s) && (mode.Literal? ==> IsQuote(mode.quote))
    ensures Clean(mode, Squeeze(s))
    decreases |s|
  {
    if s != [] {
      if IsSpace(s[0]) {
        SkippingKeepsClean(mode, s);
        SqueezeKeepsClean(mode, SkipSpaces(s));
        assert ([' '] + Squeeze(SkipSpaces(s)))[1..] == Squeeze(SkipSpaces(s));
      } else if mode.Literal? && Escapes(s) {
        EscapeSurvives(mode, s);
      } else {
        SqueezeKeepsClean(Scan(mode, s).mode, s[1..]);
        assert ([s[0]] + Squeeze(s[1..]))[1..] == Squeeze(s[1..]);
      }
    }
  }

  lemma EscapeIsClean(mode: Mode, c: char, out: string)
    requires mode.Literal? && Clean(mode, out)
    ensures Clean(mode, ['\\'] + ([c] + out))
  {
    assert (['\\'] + ([c] + out))[2..] == out;
  }

  lemma SqueezeOfSpace(s: string)
    requires s != [] && IsSpace(s[0])
    ensures var rest := SkipSpaces(s[1..]); Squeeze(s) == if rest == [] then [] else [' '] + Squeeze(rest)
  {
  }

  lemma EscapedSpaceIsClean(mode: Mode, s: string)
    requires mode.Literal? && IsQuote(mode.quote)
    requires Escapes(s) && IsSpace(s[1]) && Clean(mode, Squeeze(SkipSpaces(s[2..])))
    ensures Clean(mode, Squeeze(s))
  {
    var tail := s[1..];
    assert tail[1..] == s[2..] && Squeeze(s) == ['\\'] + Squeeze(tail);
    SqueezeOfSpace(tail);
    if SkipSpaces(s[2..]) == [] {
      assert Squeeze(s) == ['\\'];
    } else {
      EscapeIsClean(mode, ' ', Squeeze(SkipSpaces(s[2..])));
    }
  }

  lemma EscapedInkIsClean(mode: Mode, s: string)
    requires mode.Literal? && Escapes(s) && !IsSpace(s[1]) && Clean(mode, Squeeze(s[2..]))
    ensures Clean(mode, Squeeze(s))
  {
    assert s[1..][1..] == s[2..];
    assert Squeeze(s) == ['\\'] + ([s[1]] + Squeeze(s[2..]));
    EscapeIsClean(mode, s[1], Squeeze(s[2..]));
  }

  /** An escape keeps its second character, or the single space its whitespace run became. */
  lemma {:induction false} EscapeSurvives(mode: Mode, s: string)
    requires mode.Literal? && IsQuote(mode.quote) && Escapes(s) && Clean(mode, s)
    ensures Clean(mode, Squeeze(s))
    decreases |s|, 0
  {
    if IsSpace(s[1]) {
      SkippingKeepsClean(mode, s[2..]);
      SqueezeKeepsClean(mode, SkipSpaces(s[2..]));
      EscapedSpaceIsClean(mode, s);
    } else {
      SqueezeKeepsClean(mode, s[2..]);
      EscapedInkIsClean(mode, s);
    }
  }

  lemma {:induction false} SqueezeIdempotent(s: string)
    ensures Squeeze(Squeeze(s)) == Squeeze(s)
    decreases |s|
  {
    if s != [] {
      if !IsSpace(s[0]) {
        SqueezeIdempotent(s[1..]);
      } else if SkipSpaces(s) != [] {
        var r := SkipSpaces(s);
        SqueezeIdempotent(r);
        assert Squeeze(s)[1..] == Squeeze(r) && !IsSpace(Squeeze(r)[0]);
        assert SkipSpaces(Squeeze(s)) == Squeeze(r);
      }
    }
  }

  /** Normalising twice is normalising once, so a stored normal form has its own fingerprint. */
  lemma NormaliseIsIdempotent(text: string)
    ensures Normalise(Normalise(text)) == Normalise(text)
  {
    var stripped := Strip(Code, text);
    StripIsClean(Code, text);
    JoinSplitIsCollapse(stripped);
    SkippingKeepsClean(Code, stripped);
    SqueezeKeepsClean(Code, SkipSpaces(stripped));
    var normal := Collapse(stripped);
    CleanIsKept(Code, normal);
    JoinSplitIsCollapse(normal);
    SqueezeIdempotent(SkipSpaces(stripped));
  }

  // --- Comments and literals -------------------------------------------------------------------

  /** Where a scan of `s` alone ends; Open if the meaning of its last character hangs on the next. */
  datatype End = Settled(mode: Mode) | Open(mode: Mode)

  predicate Hangs(mode: Mode, c: char) {
    (mode.Code? && c == '/') || (mode.BlockComment? && c == '*') || (mode.Literal? && c == '\\')
  }

  function EndOf(mode: Mode, s: string): End
    decreases |s|
  {
    if s == [] then Settled(mode)
    else if |s| == 1 && Hangs(mode, s[0]) then Open(mode)
    else var step := Scan(mode, s); EndOf(step.mode, s[step.advance..])
  }

  lemma ScanIgnoresSuffix(mode: Mode, s: string, x: string)
    requires s != [] && !(|s| == 1 && Hangs(mode, s[0]))
    ensures Scan(mode, s + x) == Scan(mode, s)
  {
    if |s| > 1 { assert (s + x)[..2] == s[..2]; }
  }

  lemma {:induction false} StripConcat(mode: Mode, s: string, x: string)
    requires EndOf(mode, s).Settled?
    ensures Strip(mode, s + x) == Strip(mode, s) + Strip(EndOf(mode, s).mode, x)
    decreases |s|
  {
    if s == [] {
      assert s + x == x;
    } else {
      var step := Scan(mode, s);
      ScanIgnoresSuffix(mode, s, x);
      assert (s + x)[step.advance..] == s[step.advance..] + x;
      StripConcat(step.mode, s[step.advance..], x);
      ConcatAssociates(step.emit, Strip(step.mode, s[step.advance..]), Strip(EndOf(mode, s).mode, x));
    }
  }

  /** A slash beyond the reach of the next scan step can be cut off without changing that step. */
  lemma HeadScansAlike(mode: Mode, s: string)
    requires s != [] && |s| > Scan(mode, s).advance && s[|s| - 1] == '/'
    ensures var head := s[..|s| - 1];
            head != [] && !(|head| == 1 && Hangs(mode, head[0])) && Scan(mode, head) == Scan(mode, s)
  {
    var head := s[..|s| - 1];
    if |head| > 1 { assert head[..2] == s[..2]; }
  }

  /** A text that ends on a bare slash in code is some settled code followed by that slash. */
  lemma {:induction false} DanglingSlash(mode: Mode, s: string)
    requires EndOf(mode, s) == Open(Code)
    ensures s != [] && s[|s| - 1] == '/' && EndOf(mode, s[..|s| - 1]) == Settled(Code)
    decreases |s|
  {
    if |s| == 1 && Hangs(mode, s[0]) {
      assert s[..0] == [];
    } else {
      var step := Scan(mode, s);
      var rest, head := s[step.advance..], s[..|s| - 1];
      DanglingSlash(step.mode, rest);
      assert s[|s| - 1] == rest[|rest| - 1];
      HeadScansAlike(mode, s);
      SlicesAgree(s, step.advance);
    }
  }

  lemma SlicesAgree(s: string, from: nat)
    requires from < |s|
    ensures s[from..][..|s| - from - 1] == s[..|s| - 1][from..]
  {
  }

  predicate IsBlockComment(c: string) {
    && |c| >= 4 && c[..2] == "/*" && c[|c| - 2..] == "*/"
    && forall i :: 2 <= i && i + 3 < |c| ==> !(c[i] == '*' && c[i + 1] == '/')
  }

  predicate IsLineComment(c: string) {
    && |c| >= 3 && c[..2] == "//" && IsNewline(c[|c| - 1])
    && forall i :: 2 <= i < |c| - 1 ==> !IsNewline(c[i])
  }

  lemma {:induction false} BlockBodyDropped(c: string, from: nat, post: string)
    requires IsBlockComment(c) && 2 <= from <= |c| - 2
    ensures Strip(BlockComment, c[from..] + post) == [' '] + Strip(Code, post)
    decreases |c| - from
  {
    var s := c[from..] + post;
    assert s[0] == c[from] && s[1] == c[from + 1] && c[|c| - 2] == c[|c| - 2..][0] && c[|c| - 1] == c[|c| - 2..][1];
    if from == |c| - 2 {
      assert s[2..] == post;
    } else {
      assert !Closes(s);
      assert s[1..] == c[from + 1..] + post;
      BlockBodyDropped(c, from + 1, post);
    }
  }

  lemma {:induction false} LineBodyDropped(c: string, from: nat, post: string)
    requires IsLineComment(c) && 2 <= from <= |c| - 1
    ensures Strip(LineComment, c[from..] + post) == [' '] + Strip(Code, post)
    decreases |c| - from
  {
    var s := c[from..] + post;
    assert s[0] == c[from] && s[1..] == c[from + 1..] + post;
    if from == |c| - 1 {
      assert s[1..] == post;
    } else {
      LineBodyDropped(c, from + 1, post);
    }
  }

  lemma BlockDropped(c: string, post: string)
    requires IsBlockComment(c)
    ensures Strip(Code, c + post) == [' '] + Strip(Code, post)
  {
    var s := c + post;
    assert s[0] == c[..2][0] && s[1] == c[..2][1] && s[2..] == c[2..] + post;
    BlockBodyDropped(c, 2, post);
  }

  lemma LineDropped(c: string, post: string)
    requires IsLineComment(c)
    ensures Strip(Code, c + post) == [' '] + Strip(Code, post)
  {
    var s := c + post;
    assert s[0] == c[..2][0] && s[1] == c[..2][1] && s[2..] == c[2..] + post;
    LineBodyDropped(c, 2, post);
  }

  lemma SpaceKept(post: string)
    ensures Strip(Code, [' '] + post) == [' '] + Strip(Code, post)
  {
    assert ([' '] + post)[1..] == post;
  }

  lemma CommentDropped(c: string, post: string)
    requires IsBlockComment(c) || IsLineComment(c)
    ensures Strip(Code, c + post) == Strip(Code, [' '] + post)
  {
    SpaceKept(post);
    if IsBlockComment(c) { BlockDropped(c, post); } else { LineDropped(c, post); }
  }

  /** A line comment that the end of the text cuts short of its newline. */
  predicate IsLastLineComment(c: string) {
    |c| >= 2 && c[..2] == "//" && forall i :: 2 <= i < |c| ==> !IsNewline(c[i])
  }

  /** `c` is a comment when `post` follows it. */
  predicate IsComment(c: string, post: string) {
    IsBlockComment(c) || IsLineComment(c) || (post == [] && IsLastLineComment(c))
  }

  /** Replacing this comment after `pre` by one space leaves the normal form as it is. */
  predicate Replaceable(pre: string, comment: string, post: string) {
    Normalise(pre + comment + post) == Normalise(pre + [' '] + post)
  }

  function Ink(s: string): nat { if s == [] then 0 else (if IsSpace(s[0]) then 0 else 1) + Ink(s[1..]) }

  lemma {:induction false} InkOfConcat(a: string, b: string)
    ensures Ink(a + b) == Ink(a) + Ink(b)
  {
    if a == [] {
      assert a + b == b;
    } else {
      assert (a + b)[1..] == a[1..] + b;
      InkOfConcat(a[1..], b);
    }
  }

  lemma {:induction false} InkOfSkip(s: string)
    ensures Ink(SkipSpaces(s)) == Ink(s)
  {
    if s != [] && IsSpace(s[0]) { InkOfSkip(s[1..]); }
  }

  lemma {:induction false} InkOfSqueeze(s: string)
    ensures Ink(Squeeze(s)) == Ink(s)
    decreases |s|
  {
    if s != [] {
      if !IsSpace(s[0]) {
        InkOfSqueeze(s[1..]);
      } else {
        InkOfSkip(s);
        InkOfSqueeze(SkipSpaces(s));
      }
    }
  }

  lemma InkOfNormalise(text: string)
    ensures Ink(Normalise(text)) == Ink(Strip(Code, text))
  {
    JoinSplitIsCollapse(Strip(Code, text));
    InkOfSkip(Strip(Code, text));
    InkOfSqueeze(SkipSpaces(Strip(Code, text)));
  }

  lemma {:induction false} LineRunsOut(s: string)
    requires forall i :: 0 <= i < |s| ==> !IsNewline(s[i])
    ensures Strip(LineComment, s) == []
  {
    if s != [] { LineRunsOut(s[1..]); }
  }

  /** Everything after a double slash on one line is dropped. */
  lemma LineCommentRunsOut(body: string)
    requires forall i :: 0 <= i < |body| ==> !IsNewline(body[i])
    ensures Strip(Code, ['/', '/'] + body) == []
  {
    var s := ['/', '/'] + body;
    assert Scan(Code, s) == Step([], LineComment, 2) && s[2..] == body;
    LineRunsOut(body);
  }

  lemma SlashesDropped()
    ensures Strip(Code, "//**/") == []
  {
    assert "//**/" == ['/', '/'] + "**/";
    LineCommentRunsOut("**/");
  }

  lemma DroppedTail(head: string, tail: string)
    requires EndOf(Code, head) == Settled(Code) && Strip(Code, tail) == []
    ensures Strip(Code, head + tail) == Strip(Code, head)
  {
    StripConcat(Code, head, tail);
    assert Strip(Code, head) + [] == Strip(Code, head);
  }

  lemma SlashSpaceIsCode()
    ensures Strip(Code, "/ ") == "/ "
  {
    assert "/ "[1..] == " " && " "[1..] == "";
    assert Strip(Code, " ") == " ";
  }

  lemma StripOfSlashSpace(head: string)
    requires EndOf(Code, head) == Settled(Code)
    ensures Strip(Code, head + "/ ") == Strip(Code, head) + "/ "
  {
    StripConcat(Code, head, "/ ");
    SlashSpaceIsCode();
  }

  lemma DanglingTexts(pre: string)
    requires pre != [] && pre[|pre| - 1] == '/'
    ensures pre + "/**/" + [] == pre[..|pre| - 1] + "//**/" && pre + [' '] + [] == pre[..|pre| - 1] + "/ "
  {
    assert pre == pre[..|pre| - 1] + "/";
    assert "//**/" == "/" + "/**/" && "/ " == "/" + [' '];
  }

  lemma InkOfSlashSpace(s: string)
    ensures Ink(s + "/ ") > Ink(s)
  {
    InkOfConcat(s, "/ ");
    assert !IsSpace("/ "[0]);
  }

  /** After a dangling slash the shortest block comment is not a comment: the slashes pair up. */
  lemma DanglingSlashBreaks(pre: string)
    requires EndOf(Code, pre) == Open(Code)
    ensures !Replaceable(pre, "/**/", [])
  {
    DanglingSlash(Code, pre);
    DanglingTexts(pre);
    var head := pre[..|pre| - 1];
    SlashesDropped();
    DroppedTail(head, "//**/");
    StripOfSlashSpace(head);
    InkOfNormalise(head + "//**/");
    InkOfNormalise(head + "/ ");
    InkOfSlashSpace(Strip(Code, head));
  }

  lemma {:induction false} SkipToEnd(s: string)
    ensures SkipSpaces(s + [' ']) == if SkipSpaces(s) == [] then [] else SkipSpaces(s) + [' ']
  {
    if s == [] {
      assert s + [' '] == [' '] && [' '][1..] == [];
    } else if IsSpace(s[0]) {
      assert (s + [' '])[1..] == s[1..] + [' '];
      SkipToEnd(s[1..]);
    }
  }

  /** A space at the end collapses to nothing. */
  lemma {:induction false} TrailingSpace(s: string)
    ensures Squeeze(s + [' ']) == Squeeze(s)
    decreases |s|
  {
    if s == [] {
      assert s + [' '] == [' '];
      SkipToEnd([]);
    } else if !IsSpace(s[0]) {
      assert (s + [' '])[1..] == s[1..] + [' '];
      TrailingSpace(s[1..]);
    } else {
      SkipToEnd(s);
      TrailingSpace(SkipSpaces(s));
    }
  }

  lemma LastCommentIsOneSpace(pre: string, c: string)
    requires EndOf(Code, pre) == Settled(Code) && IsLastLineComment(c)
    ensures Replaceable(pre, c, [])
  {
    assert c == ['/', '/'] + c[2..];
    LineCommentRunsOut(c[2..]);
    DroppedTail(pre, c);
    StripConcat(Code, pre, [' ']);
    SpaceKept([]);
    assert [' '] + [] == [' '] && pre + c + [] == pre + c && pre + [' '] + [] == pre + [' '];
    var kept := Strip(Code, pre);
    JoinSplitIsCollapse(kept);
    JoinSplitIsCollapse(kept + [' ']);
    SkipToEnd(kept);
    TrailingSpace(SkipSpaces(kept));
  }

  lemma InnerCommentIsOneSpace(pre: string, c: string, post: string)
    requires EndOf(Code, pre) == Settled(Code) && (IsBlockComment(c) || IsLineComment(c))
    ensures Replaceable(pre, c, post)
  {
    assert pre + c + post == pre + (c + post) && pre + [' '] + post == pre + ([' '] + post);
    StripConcat(Code, pre, c + post);
    StripConcat(Code, pre, [' '] + post);
    CommentDropped(c, post);
  }

  /** In code, every comment counts as one space if and only if no slash dangles before it. */
  lemma CommentIsOneSpace(pre: string)
    requires EndOf(Code, pre).mode == Code
    ensures (forall c, post | IsComment(c, post) :: Replaceable(pre, c, post)) <==> EndOf(Code, pre).Settled?
  {
    if EndOf(Code, pre).Settled? {
      forall c, post | IsComment(c, post) ensures Replaceable(pre, c, post) {
        if IsBlockComment(c) || IsLineComment(c) {
          InnerCommentIsOneSpace(pre, c, post);
        } else {
          LastCommentIsOneSpace(pre, c);
        }
      }
    } else {
      DanglingSlashBreaks(pre);
      assert IsBlockComment("/**/") && IsComment("/**/", []);
    }
  }

  /** The inside of a literal: no bare closing quote, no unfinished escape. */
  predicate IsLiteralBody(quote: char, s: string)
    decreases |s|
  {
    s == [] ||
    (if s[0] == '\\' then |s| > 1 && IsLiteralBody(quote, s[2..]) else s[0] != quote && IsLiteralBody(quote, s[1..]))
  }

  lemma {:induction false} BodyKept(quote: char, body: string)
    requires IsQuote(quote) && IsLiteralBody(quote, body)
    ensures EndOf(Literal(quote), body) == Settled(Literal(quote)) && Strip(Literal(quote), body) == body
    decreases |body|
  {
    if body != [] && body[0] == '\\' {
      BodyKept(quote, body[2..]);
      assert Scan(Literal(quote), body) == Step(body[..2], Literal(quote), 2);
      assert body[..2] + body[2..] == body;
    } else if body != [] {
      BodyKept(quote, body[1..]);
      assert Scan(Literal(quote), body) == Step([body[0]], Literal(quote), 1);
      assert [body[0]] + body[1..] == body;
    }
  }

  /** A literal met in code survives the scanner character for character, comment markers included. */
  lemma LiteralIsKept(pre: string, quote: char, body: string, post: string)
    requires EndOf(Code, pre) == Settled(Code) && IsQuote(quote) && IsLiteralBody(quote, body)
    ensures Strip(Code, pre + ([quote] + (body + ([quote] + post))))
         == Strip(Code, pre) + ([quote] + (body + ([quote] + Strip(Code, post))))
  {
    var closing := [quote] + post;
    var literal := [quote] + (body + closing);
    StripConcat(Code, pre, literal);
    assert literal[1..] == body + closing && closing[1..] == post;
    BodyKept(quote, body);
    StripConcat(Literal(quote), body, closing);
  }

  lemma {:induction false} SkipInFront(a: string, b: string)
    requires b != [] && !IsSpace(b[0])
    ensures SkipSpaces(a + b) == SkipSpaces(a) + b
  {
    if a == [] {
      assert a + b == b;
    } else if IsSpace(a[0]) {
      assert (a + b)[1..] == a[1..] + b;
      SkipInFront(a[1..], b);
    }
  }

  /** Collapsing what stands before a word leaves the word's own collapse at the end. */
  lemma {:induction false} SqueezeInFront(a: string, b: string) returns (before: string)
    requires b != [] && !IsSpace(b[0])
    ensures Squeeze(a + b) == before + Squeeze(b)
    decreases |a|
  {
    if a == [] {
      before := [];
      assert a + b == b && [] + Squeeze(b) == Squeeze(b);
    } else if !IsSpace(a[0]) {
      assert (a + b)[1..] == a[1..] + b;
      var rest := SqueezeInFront(a[1..], b);
      before := [a[0]] + rest;
      ConcatAssociates([a[0]], rest, Squeeze(b));
    } else {
      SkipInFront(a, b);
      var rest := SqueezeInFront(SkipSpaces(a), b);
      before := [' '] + rest;
      ConcatAssociates([' '], rest, Squeeze(b));
    }
  }

  lemma {:induction false} SkipBehind(a: string, b: string)
    requires a != [] && !IsSpace(a[|a| - 1])
    ensures SkipSpaces(a + b) == SkipSpaces(a) + b
    ensures SkipSpaces(a) != [] && SkipSpaces(a)[|SkipSpaces(a)| - 1] == a[|a| - 1]
  {
    if IsSpace(a[0]) {
      assert (a + b)[1..] == a[1..] + b;
      SkipBehind(a[1..], b);
    }
  }

  /** What ends on a word character collapses independently of what follows. */
  lemma {:induction false} SqueezeBehind(a: string, b: string)
    requires a != [] && !IsSpace(a[|a| - 1])
    ensures Squeeze(a + b) == Squeeze(a) + Squeeze(b)
    decreases |a|
  {
    if IsSpace(a[0]) {
      SkipBehind(a, b);
      SqueezeBehind(SkipSpaces(a), b);
      ConcatAssociates([' '], Squeeze(SkipSpaces(a)), Squeeze(b));
    } else {
      assert (a + b)[1..] == a[1..] + b;
      if |a| == 1 {
        assert a[1..] + b == b && Squeeze(a) == [a[0]];
      } else {
        SqueezeBehind(a[1..], b);
        ConcatAssociates([a[0]], Squeeze(a[1..]), Squeeze(b));
      }
    }
  }

  lemma WordSurvives(kept: string, word: string, rest: string) returns (before: string)
    requires word != [] && !IsSpace(word[0]) && !IsSpace(word[|word| - 1])
    ensures Collapse(kept + (word + rest)) == before + (Squeeze(word) + Squeeze(rest))
  {
    SkipInFront(kept, word + rest);
    before := SqueezeInFront(SkipSpaces(kept), word + rest);
    SqueezeBehind(word, rest);
  }

  function Quoted(quote: char, body: string): string { [quote] + body + [quote] }

  lemma QuotedThen(quote: char, body: string, tail: string)
    ensures Quoted(quote, body) + tail == [quote] + (body + ([quote] + tail))
  {
  }

  lemma QuotedStripped(pre: string, quote: char, body: string, post: string)
    requires EndOf(Code, pre) == Settled(Code) && IsQuote(quote) && IsLiteralBody(quote, body)
    ensures Strip(Code, pre + Quoted(quote, body) + post) ==
              Strip(Code, pre) + (Quoted(quote, body) + Strip(Code, post))
  {
    LiteralIsKept(pre, quote, body, post);
    QuotedThen(quote, body, post);
    QuotedThen(quote, body, Strip(Code, post));
    ConcatAssociates(pre, Quoted(quote, body), post);
  }

  /** So the normal form keeps every literal met in code, up to the collapse of whitespace in it, followed
      by the collapse of what the scanner keeps of the rest. */
  lemma LiteralSurvives(pre: string, quote: char, body: string, post: string) returns (before: string)
    requires EndOf(Code, pre) == Settled(Code) && IsQuote(quote) && IsLiteralBody(quote, body)
    ensures Normalise(pre + Quoted(quote, body) + post) ==
              before + (Squeeze(Quoted(quote, body)) + Squeeze(Strip(Code, post)))
  {
    QuotedStripped(pre, quote, body, post);
    JoinSplitIsCollapse(Strip(Code, pre) + (Quoted(quote, body) + Strip(Code, post)));
    before := WordSurvives(Strip(Code, pre), Quoted(quote, body), Strip(Code, post));
  }
}
