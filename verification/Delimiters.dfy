/** The delimiter scanner: a hand-written lexer and stack machine, against a
    recursive lexer and a grammar of well-nested brackets. */
module Delimiters {
  import opened Records

  // ---- the lexer, as a specification ----

  predicate IsOpen(c: char) { c == '(' || c == '[' || c == '{' }

  predicate IsClose(c: char) { c == ')' || c == ']' || c == '}' }

  function Close(c: char): char { if c == '(' then ')' else if c == '[' then ']' else '}' }

  predicate Starts(s: string, a: char, b: char) { |s| >= 2 && s[0] == a && s[1] == b }

  /** From the end of the line on, its newline included. */
  function AfterLine(s: string): (r: string)
    ensures |r| <= |s|
  {
    if s == "" || s[0] == '\n' then s else AfterLine(s[1..])
  }

  /** What follows the first end of a block comment. */
  function AfterBlock(s: string): (r: Option<string>)
    ensures r.Some? ==> |r.value| <= |s|
  {
    if |s| < 2 then None else if Starts(s, '*', '/') then Some(s[2..]) else AfterBlock(s[1..])
  }

  /** What follows a string literal's closing quote: a backslash hides the next
      character, and only Python lets a newline in unescaped. */
  function AfterString(s: string, quote: char, python: bool): (r: Option<string>)
    ensures r.Some? ==> |r.value| <= |s|
  {
    if s == "" || (s[0] == '\n' && !python) then None
    else if s[0] == '\\' && |s| > 1 then AfterString(s[2..], quote, python)
    else if s[0] == quote then Some(s[1..])
    else AfterString(s[1..], quote, python)
  }

  predicate LineComment(s: string, python: bool) {
    Starts(s, '/', '/') || (python && s != "" && s[0] == '#')
  }

  predicate Quote(c: char) { c == '"' || c == '\'' }

  /** The delimiters outside comments and strings; `None` if one is not closed. */
  function Lex(s: string, python: bool): Option<string>
    decreases |s|
  {
    if s == "" then Some("")
    else if LineComment(s, python) then Lex(AfterComment(s), python)
    else if Starts(s, '/', '*') then
      match AfterBlock(s[2..])
      case None => None
      case Some(rest) => Lex(rest, python)
    else if Quote(s[0]) then
      match AfterString(s[1..], s[0], python)
      case None => None
      case Some(rest) => Lex(rest, python)
    else
      match Lex(s[1..], python)
      case None => None
      case Some(d) => Some(if IsOpen(s[0]) || IsClose(s[0]) then [s[0]] + d else d)
  }

  function AfterComment(s: string): (r: string)
    requires s != ""
    ensures |r| < |s|
  {
    AfterLine(s[1..])
  }

  // ---- the grammar ----

  /** A well-nested sequence: nothing, or a bracketed one and what follows. */
  datatype Nest = Empty | Wrap(open: char, inner: Nest, rest: Nest)

  predicate Brackets(n: Nest) {
    n.Wrap? ==> IsOpen(n.open) && Brackets(n.inner) && Brackets(n.rest)
  }

  function Yield(n: Nest): string {
    match n
    case Empty => ""
    case Wrap(o, inner, rest) => [o] + Yield(inner) + [Close(o)] + Yield(rest)
  }

  ghost predicate Derives(n: Nest, d: string) { Brackets(n) && Yield(n) == d }

  ghost predicate WellNested(d: string) { exists n :: Derives(n, d) }

  // ---- the stack machine ----

  predicate Accepts(d: string, stack: string) {
    if d == "" then stack == ""
    else if IsOpen(d[0]) then Accepts(d[1..], stack + [d[0]])
    else stack != "" && d[0] == Close(stack[|stack| - 1]) && Accepts(d[1..], stack[..|stack| - 1])
  }

  predicate Opens(stack: string) { forall k :: 0 <= k < |stack| ==> IsOpen(stack[k]) }

  /** Reading a well-nested sequence leaves the stack as it was. */
  lemma {:induction false} NestIsNeutral(n: Nest, rest: string, stack: string)
    requires Brackets(n)
    ensures Accepts(Yield(n) + rest, stack) == Accepts(rest, stack)
    decreases n
  {
    match n
    case Empty => assert "" + rest == rest;
    case Wrap(o, inner, after) =>
      var tail := [Close(o)] + (Yield(after) + rest);
      Regroup(o, Yield(inner), Close(o), Yield(after), rest);
      OpenStep(o, Yield(inner) + tail, stack);
      NestIsNeutral(inner, tail, stack + [o]);
      NestIsNeutral(after, rest, stack);
  }

  lemma OpenStep(o: char, rest: string, stack: string)
    requires IsOpen(o)
    ensures Accepts([o] + rest, stack) == Accepts(rest, stack + [o])
  {
    assert ([o] + rest)[1..] == rest;
  }

  /** The remaining input seen from a stack: for every open bracket, innermost
      first, a well-nested stretch and its close. */
  function Spread(stack: string, ns: seq<Nest>): string
    requires |ns| == |stack| + 1
    decreases |stack|, 1
  {
    Yield(ns[|stack|]) + Closing(stack, ns[..|stack|])
  }

  function Closing(stack: string, ns: seq<Nest>): string
    requires |ns| == |stack|
    decreases |stack|, 0
  {
    if stack == "" then "" else [Close(stack[|stack| - 1])] + Spread(stack[..|stack| - 1], ns)
  }

  /** Whatever the machine accepts comes apart along the grammar. */
  lemma {:induction false} AcceptedIsSpread(d: string, stack: string) returns (ns: seq<Nest>)
    requires Accepts(d, stack)
    ensures |ns| == |stack| + 1 && (forall k :: 0 <= k < |ns| ==> Brackets(ns[k])) && Spread(stack, ns) == d
    decreases |d|
  {
    if d == "" {
      ns := [Empty];
    } else if IsOpen(d[0]) {
      var o, n := d[0], |stack|;
      var deeper := AcceptedIsSpread(d[1..], stack + [o]);
      assert (stack + [o])[..n] == stack;
      ns := deeper[..n] + [Wrap(o, deeper[n + 1], deeper[n])];
      assert d == [o] + d[1..];
      WrapSpread(stack, deeper, ns, o);
    } else {
      var n := |stack| - 1;
      var outer := AcceptedIsSpread(d[1..], stack[..n]);
      ns := outer + [Empty];
      assert ns[..n + 1] == outer;
      assert d == "" + ([d[0]] + d[1..]);
    }
  }

  lemma WrapSpread(stack: string, deeper: seq<Nest>, ns: seq<Nest>, o: char)
    requires |deeper| == |stack| + 2 && |ns| == |stack| + 1 && ns[..|stack|] == deeper[..|stack|]
    requires ns[|stack|] == Wrap(o, deeper[|stack| + 1], deeper[|stack|])
    ensures Spread(stack, ns) == [o] + Spread(stack + [o], deeper)
  {
    var n := |stack|;
    var t := Closing(stack, deeper[..n]);
    assert deeper[..n + 1][..n] == deeper[..n];
    assert Spread(stack + [o], deeper) == Yield(deeper[|stack| + 1]) + ([Close(o)] + (Yield(deeper[n]) + t)) by {
      var n := |stack|;
      assert (stack + [o])[..n] == stack && (stack + [o])[n] == o;
      assert Closing(stack + [o], deeper[..n + 1]) == [Close(o)] + (Yield(deeper[n]) + t);
    }
    Regroup(o, Yield(deeper[n + 1]), Close(o), Yield(deeper[n]), Closing(stack, deeper[..n]));
  }

  lemma Regroup(o: char, a: string, c: char, b: string, t: string)
    ensures ([o] + a + [c] + b) + t == [o] + (a + ([c] + (b + t)))
  { }

  /** The machine decides the grammar: from an empty stack it accepts exactly the
      well-nested sequences. */
  lemma MachineDecidesGrammar(d: string)
    ensures Accepts(d, "") <==> WellNested(d)
  {
    if Accepts(d, "") {
      var ns := AcceptedIsSpread(d, "");
      assert Derives(ns[0], d);
    }
    if n :| Derives(n, d) {
      NestIsNeutral(n, "", "");
      assert Yield(n) + "" == d;
    }
  }

  // ---- the scanner ----

  datatype Verdict = Balanced | UnclosedComment | UnclosedString | Mismatched | Unexpected | UnclosedDelimiter

  /** Lexes to the end, and the machine accepts from here. */
  predicate Passes(s: string, stack: string, python: bool) {
    Lex(s, python).Some? && Accepts(Lex(s, python).value, stack)
  }

  method SkipLine(code: string, start: nat) returns (i: nat)
    requires start <= |code|
    ensures start <= i <= |code| && code[i..] == AfterLine(code[start..])
  {
    i := start;
    while i < |code| && code[i] != '\n'
      invariant start <= i <= |code| && AfterLine(code[i..]) == AfterLine(code[start..])
    {
      assert code[i..][1..] == code[i + 1..];
      i := i + 1;
    }
  }

  method SkipBlock(code: string, start: nat) returns (i: nat, closed: bool)
    requires start <= |code|
    ensures start <= i <= |code|
    ensures closed ==> AfterBlock(code[start..]) == Some(code[i..])
    ensures !closed ==> AfterBlock(code[start..]) == None
  {
    i := start;
    closed := false;
    while i + 1 < |code|
      invariant start <= i <= |code| && AfterBlock(code[i..]) == AfterBlock(code[start..])
    {
      if code[i] == '*' && code[i + 1] == '/' {
        i := i + 2;
        closed := true;
        return;
      }
      assert code[i..][1..] == code[i + 1..];
      i := i + 1;
    }
  }

  method SkipString(code: string, start: nat, quote: char, python: bool) returns (i: nat, closed: bool)
    requires start <= |code|
    ensures start <= i <= |code|
    ensures closed ==> AfterString(code[start..], quote, python) == Some(code[i..])
    ensures !closed ==> AfterString(code[start..], quote, python) == None
  {
    i := start;
    closed := false;
    while i < |code|
      invariant start <= i <= |code| && AfterString(code[i..], quote, python) == AfterString(code[start..], quote, python)
    {
      assert code[i..][1..] == code[i + 1..];
      var curr := code[i];
      if curr == '\n' && !python { return; }
      if curr == '\\' && i + 1 < |code| {
        assert code[i..][2..] == code[i + 2..];
        i := i + 2;
        continue;
      }
      if curr == quote {
        i := i + 1;
        closed := true;
        return;
      }
      i := i + 1;
    }
  }

  /** What one delimiter, or any other plain character, does to the stack. */
  method Step(ch: char, stack: string) returns (stack': string, verdict: Verdict)
    requires Opens(stack)
    ensures Opens(stack')
    ensures verdict.Balanced? <==> !IsClose(ch) || (stack != "" && ch == Close(stack[|stack| - 1]))
    ensures verdict.Unexpected? <==> IsClose(ch) && stack == ""
    ensures verdict.Balanced? || verdict.Unexpected? || verdict.Mismatched?
    ensures verdict.Balanced? ==>
      stack' == if IsOpen(ch) then stack + [ch] else if IsClose(ch) then stack[..|stack| - 1] else stack
  {
    stack', verdict := stack, Balanced;
    if IsOpen(ch) {
      stack' := stack + [ch];
    } else if IsClose(ch) {
      if stack == "" { return stack', Unexpected; }
      var top := stack[|stack| - 1];
      stack' := stack[..|stack| - 1];
      if ch != Close(top) { return stack', Mismatched; }
    }
  }

  lemma PlainStep(s: string, stack: string, python: bool)
    requires s != "" && !LineComment(s, python) && !Starts(s, '/', '*') && !Quote(s[0])
    ensures IsOpen(s[0]) ==> Passes(s, stack, python) == Passes(s[1..], stack + [s[0]], python)
    ensures IsClose(s[0]) ==>
      (Passes(s, stack, python) <==> stack != "" && s[0] == Close(stack[|stack| - 1]) && Passes(s[1..], stack[..|stack| - 1], python))
    ensures !IsOpen(s[0]) && !IsClose(s[0]) ==> Passes(s, stack, python) == Passes(s[1..], stack, python)
  {
    if Lex(s[1..], python).Some? {
      var d := Lex(s[1..], python).value;
      assert ([s[0]] + d)[1..] == d;
    }
  }

  /** `validate_balanced_delimiters`: for every input and language flag, Ok
      exactly when every comment and string is closed and the delimiters outside
      them are well nested. */
  method ValidateBalancedDelimiters(code: string, python: bool) returns (verdict: Verdict)
    ensures verdict.Balanced? <==> Lex(code, python).Some? && WellNested(Lex(code, python).value)
    ensures verdict.UnclosedComment? || verdict.UnclosedString? ==> Lex(code, python).None?
    ensures verdict.UnclosedDelimiter? ==> Lex(code, python).Some?
  {
    if Lex(code, python).Some? { MachineDecidesGrammar(Lex(code, python).value); }
    var stack: string := "";
    var i := 0;
    assert code[0..] == code;
    while i < |code|
      invariant 0 <= i <= |code| && Opens(stack)
      invariant Passes(code, "", python) <==> Passes(code[i..], stack, python)
      invariant Lex(code, python).Some? <==> Lex(code[i..], python).Some?
      decreases |code| - i
    {
      ghost var s := code[i..];
      var ch := code[i];
      assert s[1..] == code[i + 1..];
      if (ch == '/' && i + 1 < |code| && code[i + 1] == '/') || (python && ch == '#') {
        i := SkipLine(code, i + 1);
        continue;
      }
      if ch == '/' && i + 1 < |code| && code[i + 1] == '*' {
        assert s[2..] == code[i + 2..];
        var closed;
        i, closed := SkipBlock(code, i + 2);
        if !closed { return UnclosedComment; }
        continue;
      }
      if ch == '"' || ch == '\'' {
        var closed;
        i, closed := SkipString(code, i + 1, ch, python);
        if !closed { return UnclosedString; }
        continue;
      }
      PlainStep(s, stack, python);
      stack, verdict := Step(ch, stack);
      if !verdict.Balanced? { return; }
      i := i + 1;
    }
    assert code[i..] == "";
    if stack != "" { return UnclosedDelimiter; }
    return Balanced;
  }

  // ---- Python has neither kind of slash comment ----

  predicate NumberSign(s: string) { s != "" && s[0] == '#' }

  /** The same lexer with slashes as operators: number-sign comments and strings. */
  function PyLex(s: string): Option<string>
    decreases |s|
  {
    if s == "" then Some("")
    else if NumberSign(s) then PyLex(AfterComment(s))
    else if Quote(s[0]) then
      match AfterString(s[1..], s[0], true)
      case None => None
      case Some(rest) => PyLex(rest)
    else
      match PyLex(s[1..])
      case None => None
      case Some(d) => Some(if IsOpen(s[0]) || IsClose(s[0]) then [s[0]] + d else d)
  }

  predicate PyPasses(s: string, stack: string) {
    PyLex(s).Some? && Accepts(PyLex(s).value, stack)
  }

  /** Two slashes, or a slash and a star: floor division, or nothing, in Python. */
  predicate Slashes(s: string) { Starts(s, '/', '/') || Starts(s, '/', '*') }

  /** The first such pair outside number-sign comments and strings. */
  function PairAt(s: string): (r: Option<string>)
    ensures r.Some? ==> Slashes(r.value) && |r.value| <= |s|
    decreases |s|
  {
    if s == "" then None
    else if NumberSign(s) then PairAt(AfterComment(s))
    else if Slashes(s) then Some(s)
    else if Quote(s[0]) then
      match AfterString(s[1..], s[0], true)
      case None => None
      case Some(rest) => PairAt(rest)
    else PairAt(s[1..])
  }

  lemma {:induction false} WithoutPairsSameDelimiters(s: string)
    requires PairAt(s).None?
    ensures Lex(s, true) == PyLex(s)
    decreases |s|
  {
    if s != "" {
      if NumberSign(s) { WithoutPairsSameDelimiters(AfterComment(s)); }
      else if Quote(s[0]) {
        var after := AfterString(s[1..], s[0], true);
        if after.Some? { WithoutPairsSameDelimiters(after.value); }
      } else { WithoutPairsSameDelimiters(s[1..]); }
    }
  }

  /** What one plain character does to the stack; `None` if it does not fit. */
  function Push(ch: char, stack: string): Option<string> {
    if IsOpen(ch) then Some(stack + [ch])
    else if !IsClose(ch) then Some(stack)
    else if stack != "" && ch == Close(stack[|stack| - 1]) then Some(stack[..|stack| - 1])
    else None
  }

  /** How far both lexers go the same way: to the end, to a point where both
      refuse, or to the first slash pair with the stack they share there. */
  datatype Prefix = NoPair | Refused | Pair(rest: string, stack: string)

  function FirstPair(s: string, stack: string): (r: Prefix)
    ensures r.Pair? ==> PairAt(s) == Some(r.rest)
    ensures r.NoPair? ==> PairAt(s).None?
    decreases |s|
  {
    if s == "" then NoPair
    else if NumberSign(s) then FirstPair(AfterComment(s), stack)
    else if Slashes(s) then Pair(s, stack)
    else if Quote(s[0]) then
      match AfterString(s[1..], s[0], true)
      case None => Refused
      case Some(rest) => FirstPair(rest, stack)
    else
      match Push(s[0], stack)
      case None => Refused
      case Some(stack') => FirstPair(s[1..], stack')
  }

  lemma PyPlainStep(s: string, stack: string)
    requires s != "" && !NumberSign(s) && !Quote(s[0])
    ensures match Push(s[0], stack)
      case None => !PyPasses(s, stack)
      case Some(stack') => PyPasses(s, stack) == PyPasses(s[1..], stack')
  {
    if PyLex(s[1..]).Some? {
      var d := PyLex(s[1..]).value;
      assert ([s[0]] + d)[1..] == d;
    }
  }

  /** Up to the first slash pair the scanner and Python cannot differ. */
  lemma {:induction false} SameUpToFirstPair(s: string, stack: string)
    ensures match FirstPair(s, stack)
      case NoPair => Passes(s, stack, true) == PyPasses(s, stack)
      case Refused => !Passes(s, stack, true) && !PyPasses(s, stack)
      case Pair(rest, stack') =>
        Passes(s, stack, true) == Passes(rest, stack', true) && PyPasses(s, stack) == PyPasses(rest, stack')
    decreases |s|
  {
    if s != "" && !Slashes(s) {
      if NumberSign(s) { SameUpToFirstPair(AfterComment(s), stack); }
      else if Quote(s[0]) {
        var after := AfterString(s[1..], s[0], true);
        if after.Some? { SameUpToFirstPair(after.value, stack); }
      } else {
        PlainStep(s, stack, true);
        PyPlainStep(s, stack);
        if Push(s[0], stack).Some? { SameUpToFirstPair(s[1..], Push(s[0], stack).value); }
      }
    }
  }

  /** Where the scanner goes on after taking a slash pair for a comment. */
  function Resumes(s: string): (r: Option<string>)
    requires Slashes(s)
    ensures r.Some? ==> |r.value| < |s|
  {
    if Starts(s, '/', '/') then Some(AfterComment(s)) else AfterBlock(s[2..])
  }

  lemma ScannerSkips(s: string, stack: string)
    requires Slashes(s)
    ensures Passes(s, stack, true) <==> Resumes(s).Some? && Passes(Resumes(s).value, stack, true)
  { }

  /** Python reads from `s` to a code position `rest`, and the stack with it. */
  function Reads(s: string, rest: string, stack: string): Option<string>
    decreases |s|
  {
    if s == rest then Some(stack)
    else if s == "" then None
    else if NumberSign(s) then Reads(AfterComment(s), rest, stack)
    else if Quote(s[0]) then
      match AfterString(s[1..], s[0], true)
      case None => None
      case Some(after) => Reads(after, rest, stack)
    else
      match Push(s[0], stack)
      case None => None
      case Some(stack') => Reads(s[1..], rest, stack')
  }

  /** `rest` is a position at which Python's lexer stands between two tokens, so
      what the scanner skips contains whole strings and comments only. */
  predicate Meets(s: string, rest: string)
    decreases |s|
  {
    if s == rest then true
    else if s == "" then false
    else if NumberSign(s) then Meets(AfterComment(s), rest)
    else if Quote(s[0]) then
      match AfterString(s[1..], s[0], true)
      case None => false
      case Some(after) => Meets(after, rest)
    else Meets(s[1..], rest)
  }

  lemma {:induction false} PythonReads(s: string, rest: string, stack: string)
    requires Meets(s, rest)
    ensures match Reads(s, rest, stack)
      case None => !PyPasses(s, stack)
      case Some(stack') => PyPasses(s, stack) == PyPasses(rest, stack')
    decreases |s|
  {
    if s != rest {
      if NumberSign(s) { PythonReads(AfterComment(s), rest, stack); }
      else if Quote(s[0]) { PythonReads(AfterString(s[1..], s[0], true).value, rest, stack); }
      else {
        PyPlainStep(s, stack);
        if Push(s[0], stack).Some? { PythonReads(s[1..], rest, Push(s[0], stack).value); }
      }
    }
  }

  /** What is left to read determines the stack it is accepted from. */
  lemma {:induction false} AcceptedFromOneStack(d: string, stack: string, stack': string)
    requires Opens(stack) && Opens(stack') && Accepts(d, stack) && Accepts(d, stack')
    ensures stack == stack'
    decreases |d|
  {
    if d != "" {
      if IsOpen(d[0]) {
        AcceptedFromOneStack(d[1..], stack + [d[0]], stack' + [d[0]]);
        assert (stack + [d[0]])[..|stack|] == stack && (stack' + [d[0]])[..|stack'|] == stack';
      } else {
        var n, n' := |stack| - 1, |stack'| - 1;
        AcceptedFromOneStack(d[1..], stack[..n], stack'[..n']);
        assert stack == stack[..n] + [stack[n]] && stack' == stack'[..n'] + [stack'[n']];
      }
    }
  }

  lemma {:induction false} PairStackOpens(s: string, stack: string)
    requires Opens(stack) && FirstPair(s, stack).Pair?
    ensures Opens(FirstPair(s, stack).stack)
    decreases |s|
  {
    if s != "" && !Slashes(s) {
      if NumberSign(s) { PairStackOpens(AfterComment(s), stack); }
      else if Quote(s[0]) { PairStackOpens(AfterString(s[1..], s[0], true).value, stack); }
      else { PairStackOpens(s[1..], Push(s[0], stack).value); }
    }
  }

  lemma {:induction false} ReadStackOpens(s: string, rest: string, stack: string)
    requires Opens(stack) && Reads(s, rest, stack).Some?
    ensures Opens(Reads(s, rest, stack).value)
    decreases |s|
  {
    if s != rest {
      if NumberSign(s) { ReadStackOpens(AfterComment(s), rest, stack); }
      else if Quote(s[0]) { ReadStackOpens(AfterString(s[1..], s[0], true).value, rest, stack); }
      else { ReadStackOpens(s[1..], rest, Push(s[0], stack).value); }
    }
  }

  /** Balanced with slashes read as operators. */
  ghost predicate PythonBalanced(s: string) { PyLex(s).Some? && WellNested(PyLex(s).value) }

  ghost predicate ScannerAccepts(s: string) { Lex(s, true).Some? && WellNested(Lex(s, true).value) }

  lemma VerdictsAreMachines(s: string)
    ensures ScannerAccepts(s) <==> Passes(s, "", true)
    ensures PythonBalanced(s) <==> PyPasses(s, "")
  {
    if Lex(s, true).Some? { MachineDecidesGrammar(Lex(s, true).value); }
    if PyLex(s).Some? { MachineDecidesGrammar(PyLex(s).value); }
  }

  /** Every stretch the scanner skips holds whole tokens and, read by Python,
      leaves the stack of open brackets as it was. */
  predicate SkipsAreNeutral(s: string, stack: string)
    decreases |s|
  {
    match FirstPair(s, stack)
    case NoPair => true
    case Refused => true
    case Pair(r, st) =>
      Resumes(r).Some? && Meets(r, Resumes(r).value) && Reads(r, Resumes(r).value, st) == Some(st) &&
      SkipsAreNeutral(Resumes(r).value, st)
  }

  lemma {:induction false} NeutralSkipsPass(s: string, stack: string)
    requires SkipsAreNeutral(s, stack)
    ensures Passes(s, stack, true) == PyPasses(s, stack)
    decreases |s|
  {
    SameUpToFirstPair(s, stack);
    var p := FirstPair(s, stack);
    if p.Pair? {
      ScannerSkips(p.rest, p.stack);
      PythonReads(p.rest, Resumes(p.rest).value, p.stack);
      NeutralSkipsPass(Resumes(p.rest).value, p.stack);
    }
  }

  /** With any number of slash pairs: if every skipped stretch is neutral, above
      all if no pair is reached outside comments and strings, the verdict is right. */
  lemma NeutralSkipsAreJudgedRight(s: string)
    requires SkipsAreNeutral(s, "")
    ensures ScannerAccepts(s) <==> PythonBalanced(s)
  {
    VerdictsAreMachines(s);
    NeutralSkipsPass(s, "");
  }

  // ---- any number of skipped stretches ----

  /** Whatever the scanner skips ends between two tokens of Python's. */
  predicate SkipsWholeTokens(s: string)
    decreases |s|
  {
    match PairAt(s)
    case None => true
    case Some(r) => Resumes(r).Some? ==> Meets(r, Resumes(r).value) && SkipsWholeTokens(Resumes(r).value)
  }

  /** The code after the last skipped stretch, with the stack of open brackets each
      of the two has there, unless one of them has refused before. */
  datatype Joint = OneRefuses | Joined(rest: string, scanner: string, python: string)

  function AfterSkips(s: string, scanner: string, python: string): Joint
    decreases |s|
  {
    if PairAt(s).None? then Joined(s, scanner, python)
    else
      var p, q := FirstPair(s, scanner), FirstPair(s, python);
      if !p.Pair? || !q.Pair? || Resumes(p.rest).None? then OneRefuses
      else
        var rest := Resumes(p.rest).value;
        match Reads(p.rest, rest, q.stack)
        case None => OneRefuses
        case Some(python') => AfterSkips(rest, p.stack, python')
  }

  lemma {:induction false} BothReach(s: string, scanner: string, python: string)
    requires SkipsWholeTokens(s) && Opens(scanner) && Opens(python)
    ensures match AfterSkips(s, scanner, python)
      case OneRefuses => !Passes(s, scanner, true) || !PyPasses(s, python)
      case Joined(rest, a, b) =>
        Passes(s, scanner, true) == Passes(rest, a, true) && PyPasses(s, python) == PyPasses(rest, b) &&
        Opens(a) && Opens(b) && PairAt(rest).None?
    decreases |s|
  {
    if PairAt(s).Some? {
      var p, q := FirstPair(s, scanner), FirstPair(s, python);
      SameUpToFirstPair(s, scanner);
      SameUpToFirstPair(s, python);
      if p.Pair? && q.Pair? {
        ScannerSkips(p.rest, p.stack);
        PairStackOpens(s, scanner);
        PairStackOpens(s, python);
        if Resumes(p.rest).Some? {
          var rest := Resumes(p.rest).value;
          PythonReads(p.rest, rest, q.stack);
          if Reads(p.rest, rest, q.stack).Some? {
            ReadStackOpens(p.rest, rest, q.stack);
            BothReach(rest, p.stack, Reads(p.rest, rest, q.stack).value);
          }
        }
      }
    }
  }

  /** Code with any number of slash pairs whose skipped stretches hold whole
      tokens: the two verdicts agree on acceptance if and only if, behind the last
      stretch, reading all of them has left the stack of open brackets as the
      scanner has it. Stretches that are not neutral may cancel out. */
  lemma SkipsAreJudgedRightIffNeutralInAll(s: string)
    requires SkipsWholeTokens(s)
    ensures var j := AfterSkips(s, "", ""); var neutral := j.Joined? && j.scanner == j.python;
      (ScannerAccepts(s) && PythonBalanced(s) <==> ScannerAccepts(s) && neutral) &&
      (ScannerAccepts(s) && PythonBalanced(s) <==> PythonBalanced(s) && neutral)
  {
    var j := AfterSkips(s, "", "");
    VerdictsAreMachines(s);
    BothReach(s, "", "");
    if j.Joined? {
      WithoutPairsSameDelimiters(j.rest);
      if ScannerAccepts(s) && PythonBalanced(s) { AcceptedFromOneStack(Lex(j.rest, true).value, j.scanner, j.python); }
    }
  }

  /** Floor division of bracketed operands is refused, although balanced: the
      skipped stretch closes the bracket that was open before it. */
  lemma FloorDivisionIsRefused()
    ensures !ScannerAccepts("(a//b)") && PythonBalanced("(a//b)")
  {
    var s := "(a//b)";
    assert s[1..] == "a//b)" && "a//b)"[1..] == "//b)";
    assert FirstPair("//b)", "(") == Pair("//b)", "(");
    assert FirstPair("a//b)", "(") == Pair("//b)", "(");
    assert "" + ['('] == "(";
    assert FirstPair(s, "") == Pair("//b)", "(");
    SameUpToFirstPair(s, "");
    VerdictsAreMachines(s);
    ScannerSkips("//b)", "(");
    SlashesReadAsOperators();
  }

  lemma SlashesReadAsOperators()
    ensures Resumes("//b)") == Some("") && !Passes("", "(", true) && PyPasses("//b)", "(")
  {
    assert "//b)"[1..] == "/b)" && "/b)"[1..] == "b)" && "b)"[1..] == ")" && ")"[1..] == "";
    assert AfterLine(")") == "" && AfterLine("b)") == "" && AfterLine("/b)") == "";
    PyPlainStep("//b)", "(");
    PyPlainStep("/b)", "(");
    PyPlainStep("b)", "(");
    PyPlainStep(")", "(");
    assert "("[..0] == "";
  }
}
