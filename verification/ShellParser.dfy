/** The shell's parser at work (user/sh.c): a cursor moving over the input line, and the
    NULs written into the line afterwards. */
module ShellParser {
  import opened ShellGrammar

  // ---------------------------------------------------------------- spans

  /** A maximal run of word characters, or of what is left of one. */
  predicate SpanOk(t: string, w: Span) {
    w.q < w.eq <= |t| && (forall k :: w.q <= k < w.eq ==> IsWord(t[k])) && (w.eq < |t| ==> !IsWord(t[w.eq]))
  }

  predicate SpansOk(t: string, c: Cmd<Span>) {
    match c
    case Exec(args) => forall i :: 0 <= i < |args| ==> SpanOk(t, args[i])
    case Redir(d, f, _) => SpansOk(t, d) && SpanOk(t, f)
    case Pipe(l, r) => SpansOk(t, l) && SpansOk(t, r)
    case List(l, r) => SpansOk(t, l) && SpansOk(t, r)
    case Back(d) => SpansOk(t, d)
  }

  lemma {:induction false} WordEndAll(t: string, p: nat)
    requires p <= |t|
    ensures forall k :: p <= k < WordEnd(t, p) ==> IsWord(t[k])
    decreases |t| - p
  {
    if p < |t| && IsWord(t[p]) {
      WordEndAll(t, p + 1);
    }
  }

  lemma TokenSpan(t: string, p: nat)
    requires p <= |t|
    ensures var k := GetToken(t, p); k.kind == 'a' ==> SpanOk(t, Span(k.q, k.eq))
  {
    WordEndAll(t, SkipSpace(t, p));
  }

  lemma {:induction false} RedirSpans(t: string, p: nat, c: Cmd<Span>)
    requires p <= |t| && SpansOk(t, c)
    ensures var r := ParseRedirs(t, p, c); r.Ok? ==> SpansOk(t, r.cmd)
    decreases |t| - p
  {
    if Peek(t, p, {'<', '>'}) {
      var op := GetToken(t, p);
      var f := GetToken(t, op.next);
      TokenSpan(t, op.next);
      if f.kind == 'a' {
        RedirSpans(t, f.next, Redir(c, Span(f.q, f.eq), ModeOf(op.kind)));
      }
    }
  }

  lemma {:induction false} AddSpan(t: string, c: Cmd<Span>, w: Span)
    requires SpansOk(t, c) && SpanOk(t, w)
    ensures SpansOk(t, AddArg(c, w))
  {
    if c.Redir? {
      AddSpan(t, c.cmd, w);
    }
  }

  lemma {:induction false} ArgSpans(t: string, p: nat, c: Cmd<Span>)
    requires p <= |t| && SpansOk(t, c)
    ensures var r := ParseArgs(t, p, c); r.Ok? ==> SpansOk(t, r.cmd)
    decreases |t| - p
  {
    var w := GetToken(t, p);
    if !Peek(t, p, {'|', ')', '&', ';'}) && w.kind == 'a' && Argc(c) + 1 < MAXARGS {
      TokenSpan(t, p);
      var d := AddArg(c, Span(w.q, w.eq));
      AddSpan(t, c, Span(w.q, w.eq));
      RedirSpans(t, w.next, d);
      var r := ParseRedirs(t, w.next, d);
      if r.Ok? {
        ArgSpans(t, r.pos, r.cmd);
      }
    }
  }

  lemma {:induction false} ExecSpans(t: string, p: nat)
    requires p <= |t|
    ensures var r := ParseExec(t, p); r.Ok? ==> SpansOk(t, r.cmd)
    decreases |t| - p, 1
  {
    if Peek(t, p, {'('}) {
      var r := ParseLine(t, GetToken(t, p).next);
      LineSpans(t, GetToken(t, p).next);
      if r.Ok? && Peek(t, r.pos, {')'}) {
        RedirSpans(t, GetToken(t, r.pos).next, r.cmd);
      }
    } else {
      RedirSpans(t, p, Exec([]));
      var r := ParseRedirs(t, p, Exec([]));
      if r.Ok? {
        ArgSpans(t, r.pos, r.cmd);
      }
    }
  }

  lemma {:induction false} PipeSpans(t: string, p: nat)
    requires p <= |t|
    ensures var r := ParsePipe(t, p); r.Ok? ==> SpansOk(t, r.cmd)
    decreases |t| - p, 2
  {
    ExecSpans(t, p);
    var l := ParseExec(t, p);
    if l.Ok? && Peek(t, l.pos, {'|'}) {
      PipeSpans(t, GetToken(t, l.pos).next);
    }
  }

  lemma {:induction false} BackSpans(t: string, p: nat, c: Cmd<Span>)
    requires p <= |t| && SpansOk(t, c)
    ensures SpansOk(t, ParseBacks(t, p, c).cmd)
    decreases |t| - p
  {
    if Peek(t, p, {'&'}) {
      BackSpans(t, GetToken(t, p).next, Back(c));
    }
  }

  lemma {:induction false} LineSpans(t: string, p: nat)
    requires p <= |t|
    ensures var r := ParseLine(t, p); r.Ok? ==> SpansOk(t, r.cmd)
    decreases |t| - p, 3
  {
    PipeSpans(t, p);
    var l := ParsePipe(t, p);
    if l.Ok? {
      BackSpans(t, l.pos, l.cmd);
      var b := ParseBacks(t, l.pos, l.cmd);
      if Peek(t, b.pos, {';'}) {
        LineSpans(t, GetToken(t, b.pos).next);
      }
    }
  }

  // ---------------------------------------------------------------- the parser

  lemma {:induction false} RedirsSimple(t: string, p: nat, c: Cmd<Span>)
    requires p <= |t| && Simple(c)
    ensures var r := ParseRedirs(t, p, c); r.Ok? ==> Simple(r.cmd) && Argc(r.cmd) == Argc(c)
    decreases |t| - p
  {
    if Peek(t, p, {'<', '>'}) {
      var op := GetToken(t, p);
      var f := GetToken(t, op.next);
      if f.kind == 'a' {
        RedirsSimple(t, f.next, Redir(c, Span(f.q, f.eq), ModeOf(op.kind)));
      }
    }
  }

  // What each routine does next, in terms of the grammar.

  lemma AfterWhite(t: string, p: nat)
    requires p <= |t|
    ensures var q := SkipSpace(t, p); SkipSpace(t, q) == q && GetToken(t, q) == GetToken(t, p)
  {
  }

  lemma RedirsStep(t: string, p: nat, c: Cmd<Span>)
    requires p <= |t|
    ensures ParseRedirs(t, SkipSpace(t, p), c) == ParseRedirs(t, p, c)
    ensures var op := GetToken(t, p);
            var f := GetToken(t, op.next);
            ParseRedirs(t, p, c) ==
            if !Peek(t, p, {'<', '>'}) then Ok(c, SkipSpace(t, p))
            else if f.kind != 'a' then Panic
            else ParseRedirs(t, f.next, Redir(c, Span(f.q, f.eq), ModeOf(op.kind)))
  {
    AfterWhite(t, p);
  }

  lemma ExecStep(t: string, p: nat)
    requires p <= |t|
    ensures ParseBlock(t, SkipSpace(t, p)) == ParseBlock(t, p)
    ensures var r := ParseRedirs(t, p, Exec([]));
            && ParseRedirs(t, SkipSpace(t, p), Exec([])) == r
            && ParseExec(t, p) == if Peek(t, p, {'('}) then ParseBlock(t, p) else if r.Panic? then Panic
                                  else ParseArgs(t, r.pos, r.cmd)
  {
    AfterWhite(t, p);
    RedirsStep(t, p, Exec([]));
  }

  lemma ArgsStep(t: string, p: nat, c: Cmd<Span>)
    requires p <= |t|
    ensures ParseArgs(t, SkipSpace(t, p), c) == ParseArgs(t, p, c)
    ensures var w := GetToken(t, p);
            var r := ParseRedirs(t, w.next, AddArg(c, Span(w.q, w.eq)));
            ParseArgs(t, p, c) ==
            if Peek(t, p, {'|', ')', '&', ';'}) then Ok(c, SkipSpace(t, p))
            else if w.kind == '\0' then Ok(c, w.next)
            else if w.kind != 'a' || Argc(c) + 1 >= MAXARGS || r.Panic? then Panic
            else ParseArgs(t, r.pos, r.cmd)
  {
    AfterWhite(t, p);
  }

  /** s is the cursor *ps; the text is what precedes the terminating NUL. */
  class Parser {
    const text: string
    var s: nat

    ghost predicate Valid()
      reads this
    {
      s <= |text| && forall i :: 0 <= i < |text| ==> text[i] != '\0'
    }

    constructor (text: string)
      requires forall i :: 0 <= i < |text| ==> text[i] != '\0'
      ensures Valid() && this.text == text && s == 0
    {
      this.text := text;
      s := 0;
    }

    method SkipWhite()
      requires Valid()
      modifies `s
      ensures Valid() && s == SkipSpace(text, old(s))
    {
      while s < |text| && IsSpace(text[s])
        invariant s <= |text| && SkipSpace(text, s) == SkipSpace(text, old(s))
      {
        s := s + 1;
      }
    }

    method Gettoken() returns (k: Token)
      requires Valid()
      modifies `s
      ensures Valid() && k == GetToken(text, old(s)) && s == k.next
    {
      SkipWhite();
      var q := s;
      var ret := if s < |text| then text[s] else '\0';
      if ret == '\0' {
      } else if ret in {'|', '(', ')', ';', '&', '<'} {
        s := s + 1;
      } else if ret == '>' {
        s := s + 1;
        if s < |text| && text[s] == '>' {
          ret := '+';
          s := s + 1;
        }
      } else {
        ret := 'a';
        while s < |text| && IsWord(text[s])
          invariant q <= s <= |text| && WordEnd(text, s) == WordEnd(text, q)
        {
          s := s + 1;
        }
      }
      var eq := s;
      SkipWhite();
      k := Token(ret, q, eq, s);
    }

    method PeekAt(toks: set<char>) returns (r: bool)
      requires Valid() && '\0' !in toks
      modifies `s
      ensures Valid() && r == Peek(text, old(s), toks) && s == SkipSpace(text, old(s))
    {
      SkipWhite();
      r := s < |text| && text[s] in toks;
    }

    method ParseRedirections(cmd: Cmd<Span>) returns (r: Parsed)
      requires Valid()
      modifies `s
      ensures Valid() && r == ParseRedirs(text, old(s), cmd) && (r.Ok? ==> s == r.pos)
    {
      hide ParseRedirs;
      var c := cmd;
      RedirsStep(text, s, c);
      var more := PeekAt({'<', '>'});
      while more
        invariant Valid() && ParseRedirs(text, s, c) == ParseRedirs(text, old(s), cmd)
        invariant SkipSpace(text, s) == s && more == Peek(text, s, {'<', '>'})
        decreases |text| - s
      {
        RedirsStep(text, s, c);
        var tok := Gettoken();
        var file := Gettoken();
        if file.kind != 'a' {
          return Panic;
        }
        c := Redir(c, Span(file.q, file.eq), ModeOf(tok.kind));
        RedirsStep(text, s, c);
        more := PeekAt({'<', '>'});
      }
      RedirsStep(text, s, c);
      r := Ok(c, s);
    }

    method ParseArguments(cmd: Cmd<Span>) returns (r: Parsed)
      requires Valid() && Simple(cmd)
      modifies `s
      ensures Valid() && r == ParseArgs(text, old(s), cmd) && (r.Ok? ==> s == r.pos)
    {
      hide ParseArgs, ParseRedirs;
      r := Ok(cmd, s);
      var argc := Argc(cmd);
      ArgsStep(text, s, cmd);
      var stop := PeekAt({'|', ')', '&', ';'});
      while !stop
        invariant Valid() && r.Ok? && Simple(r.cmd) && argc == Argc(r.cmd)
                  && ParseArgs(text, s, r.cmd) == ParseArgs(text, old(s), cmd)
        invariant SkipSpace(text, s) == s && stop == Peek(text, s, {'|', ')', '&', ';'})
        decreases |text| - s
      {
        ArgsStep(text, s, r.cmd);
        var w := Gettoken();
        if w.kind == '\0' {
          return Ok(r.cmd, s);
        }
        if w.kind != 'a' {
          return Panic;
        }
        AddArgCount(r.cmd, Span(w.q, w.eq));
        r := Ok(AddArg(r.cmd, Span(w.q, w.eq)), s);
        argc := argc + 1;
        if argc >= MAXARGS {
          return Panic;
        }
        RedirsSimple(text, s, r.cmd);
        r := ParseRedirections(r.cmd);
        if r.Panic? {
          return;
        }
        ArgsStep(text, s, r.cmd);
        stop := PeekAt({'|', ')', '&', ';'});
      }
      ArgsStep(text, s, r.cmd);
      r := Ok(r.cmd, s);
    }

    method ParseSimple() returns (r: Parsed)
      requires Valid()
      modifies `s
      ensures Valid() && r == ParseExec(text, old(s)) && (r.Ok? ==> s == r.pos)
      decreases |text| - s, 1
    {
      hide ParseExec, ParseBlock, ParseArgs, ParseRedirs;
      ExecStep(text, s);
      var block := PeekAt({'('});
      if block {
        r := ParseParens();
        return;
      }
      RedirsSimple(text, s, Exec([]));
      r := ParseRedirections(Exec([]));
      if r.Panic? {
        return;
      }
      r := ParseArguments(r.cmd);
    }

    method ParseParens() returns (r: Parsed)
      requires Valid()
      modifies `s
      ensures Valid() && r == ParseBlock(text, old(s)) && (r.Ok? ==> s == r.pos)
      decreases |text| - s, 0
    {
      hide ParseLine, ParseRedirs;
      var open := PeekAt({'('});
      if !open {
        return Panic;
      }
      AfterWhite(text, old(s));
      var _ := Gettoken();
      r := ParseWholeLine();
      if r.Panic? {
        return;
      }
      var close := PeekAt({')'});
      if !close {
        return Panic;
      }
      var _ := Gettoken();
      r := ParseRedirections(r.cmd);
    }

    method ParsePipeline() returns (r: Parsed)
      requires Valid()
      modifies `s
      ensures Valid() && r == ParsePipe(text, old(s)) && (r.Ok? ==> s == r.pos)
      decreases |text| - s, 2
    {
      hide ParseExec;
      r := ParseSimple();
      if r.Panic? {
        return;
      }
      var more := PeekAt({'|'});
      if more {
        var _ := Gettoken();
        var left := r.cmd;
        r := ParsePipeline();
        if r.Ok? {
          r := Ok(Pipe(left, r.cmd), s);
        }
      }
    }

    method ParseWholeLine() returns (r: Parsed)
      requires Valid()
      modifies `s
      ensures Valid() && r == ParseLine(text, old(s)) && (r.Ok? ==> s == r.pos)
      decreases |text| - s, 3
    {
      hide ParsePipe, ParseBacks;
      var l := ParsePipeline();
      if l.Panic? {
        return Panic;
      }
      var cmd := ParseAmpersands(l.cmd);
      r := Ok(cmd, s);
      var more := PeekAt({';'});
      if more {
        var _ := Gettoken();
        r := ParseWholeLine();
        if r.Ok? {
          r := Ok(List(cmd, r.cmd), s);
        }
      }
    }

    method ParseAmpersands(c: Cmd<Span>) returns (cmd: Cmd<Span>)
      requires Valid() && SkipSpace(text, s) == s
      modifies `s
      ensures Valid() && Ok(cmd, s) == ParseBacks(text, old(s), c)
    {
      cmd := c;
      var more := PeekAt({'&'});
      while more
        invariant Valid() && ParseBacks(text, s, cmd) == ParseBacks(text, old(s), c)
        invariant SkipSpace(text, s) == s && more == Peek(text, s, {'&'})
        decreases |text| - s
      {
        var _ := Gettoken();
        cmd := Back(cmd);
        more := PeekAt({'&'});
      }
    }

    /** parsecmd up to nulterminate. */
    method ParseCommand() returns (r: Parsed)
      requires Valid() && s == 0
      modifies `s
      ensures r == ParseCmd(text)
    {
      r := ParseWholeLine();
      if r.Ok? {
        var _ := PeekAt({});
        if s != |text| {
          return Panic;
        }
      }
    }
  }

  // ---------------------------------------------------------------- terminating the words

  /** Redirections around a command with arguments. */
  function SpanSet(c: Cmd<Span>): set<Span> {
    match c
    case Exec(args) => set i | 0 <= i < |args| :: args[i]
    case Redir(d, f, _) => SpanSet(d) + {f}
    case Pipe(l, r) => SpanSet(l) + SpanSet(r)
    case List(l, r) => SpanSet(l) + SpanSet(r)
    case Back(d) => SpanSet(d)
  }

  ghost predicate EndsSpan(c: Cmd<Span>, i: int) {
    exists w :: w in SpanSet(c) && w.eq == i
  }

  lemma {:induction false} SpansOkEach(t: string, c: Cmd<Span>, w: Span)
    requires SpansOk(t, c) && w in SpanSet(c)
    ensures SpanOk(t, w)
  {
    match c {
      case Exec(_) =>
      case Redir(d, f, _) => if w in SpanSet(d) { SpansOkEach(t, d, w); }
      case Pipe(l, r) => if w in SpanSet(l) { SpansOkEach(t, l, w); } else { SpansOkEach(t, r, w); }
      case List(l, r) => if w in SpanSet(l) { SpansOkEach(t, l, w); } else { SpansOkEach(t, r, w); }
      case Back(d) => SpansOkEach(t, d, w);
    }
  }

  /** No word's end lies within any word. */
  lemma EndsOutside(t: string, c: Cmd<Span>, v: Span, w: Span)
    requires SpansOk(t, c) && v in SpanSet(c) && w in SpanSet(c)
    ensures v.eq <= |t| && !(w.q <= v.eq < w.eq)
  {
    SpansOkEach(t, c, v);
    SpansOkEach(t, c, w);
  }

  /** nulterminate: a NUL at the end of every word of the command, and nowhere else. */
  method NulTerminate(buf: array<char>, c: Cmd<Span>)
    requires forall w :: w in SpanSet(c) ==> w.eq < buf.Length
    modifies buf
    ensures forall i :: 0 <= i < buf.Length ==> buf[i] == if EndsSpan(c, i) then '\0' else old(buf[i])
    decreases c
  {
    match c {
      case Exec(args) =>
        var k := 0;
        while k < |args|
          invariant 0 <= k <= |args|
          invariant forall i :: 0 <= i < buf.Length ==>
                      buf[i] == if EndsSpan(Exec(args[..k]), i) then '\0' else old(buf[i])
        {
          assert args[k] in SpanSet(c);
          OneMoreEnd(args, k);
          buf[args[k].eq] := '\0';
          k := k + 1;
        }
        assert args[..k] == args;
      case Redir(d, f, m) =>
        NulTerminate(buf, d);
        buf[f.eq] := '\0';
        forall i | 0 <= i < buf.Length
          ensures EndsSpan(c, i) <==> EndsSpan(d, i) || f.eq == i
        {
          assert f in SpanSet(c);
        }
      case Pipe(l, r) =>
        NulTerminate(buf, l);
        NulTerminate(buf, r);
      case List(l, r) =>
        NulTerminate(buf, l);
        NulTerminate(buf, r);
      case Back(d) =>
        NulTerminate(buf, d);
    }
  }

  lemma OneMoreEnd(args: seq<Span>, k: nat)
    requires k < |args|
    ensures forall i :: EndsSpan(Exec(args[..k + 1]), i) <==> EndsSpan(Exec(args[..k]), i) || args[k].eq == i
  {
    assert SpanSet(Exec(args[..k + 1])) == SpanSet(Exec(args[..k])) + {args[k]} by {
      forall w | w in SpanSet(Exec(args[..k])) + {args[k]}
        ensures w in SpanSet(Exec(args[..k + 1]))
      {
        var j :| 0 <= j <= k && args[j] == w;
        assert args[..k + 1][j] == w;
      }
    }
  }

  lemma NoEndWithin(t: string, c: Cmd<Span>, w: Span, k: nat)
    requires SpansOk(t, c) && w in SpanSet(c) && w.q <= k < w.eq
    ensures !EndsSpan(c, k)
  {
    forall v | v in SpanSet(c)
      ensures v.eq != k
    {
      EndsOutside(t, c, v, w);
    }
  }

  /** parsecmd: parse the line in buf, then terminate its words in place.  Every word of
      the resulting command is then a C string with exactly the characters it had. */
  method ParseInPlace(buf: array<char>) returns (r: Parsed)
    requires buf.Length > 0 && buf[buf.Length - 1] == '\0' && forall i :: 0 <= i < buf.Length - 1 ==> buf[i] != '\0'
    modifies buf
    ensures r == ParseCmd(old(buf[..buf.Length - 1]))
    ensures r.Ok? ==> forall w :: w in SpanSet(r.cmd) ==>
              w.q < w.eq < buf.Length && buf[w.q..w.eq] == old(buf[w.q..w.eq])
              && buf[w.eq] == '\0' && '\0' !in buf[w.q..w.eq]
  {
    var text := buf[..buf.Length - 1];
    var parser := new Parser(text);
    r := parser.ParseCommand();
    if r.Ok? {
      LineSpans(text, 0);
      forall w | w in SpanSet(r.cmd)
        ensures SpanOk(text, w)
      {
        SpansOkEach(text, r.cmd, w);
      }
      NulTerminate(buf, r.cmd);
      forall w | w in SpanSet(r.cmd)
        ensures buf[w.q..w.eq] == text[w.q..w.eq] && buf[w.eq] == '\0'
      {
        assert EndsSpan(r.cmd, w.eq);
        forall k | w.q <= k < w.eq
          ensures buf[k] == text[k]
        {
          NoEndWithin(text, r.cmd, w, k);
        }
      }
    }
  }
}
