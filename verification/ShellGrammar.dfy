/** The shell's command language (user/sh.c): tokens, and what each parsing routine makes
    of a text from a given position. */
module ShellGrammar {

  const MAXARGS := 10

  datatype Mode = Input | Output | Append

  /** A parsed command; words are spans of the text, or strings. */
  datatype Cmd<W> =
    | Exec(args: seq<W>)
    | Redir(cmd: Cmd<W>, file: W, mode: Mode)
    | Pipe(left: Cmd<W>, right: Cmd<W>)
    | List(left: Cmd<W>, right: Cmd<W>)
    | Back(cmd: Cmd<W>)

  datatype Span = Span(q: nat, eq: nat)

  /** A command and the position after it, or a panic. */
  datatype Parsed = Ok(cmd: Cmd<Span>, pos: nat) | Panic

  predicate IsSpace(c: char) {
    c == ' ' || c == '\t' || c == '\r' || c == '\n' || c == 0xB as char
  }

  predicate IsSymbol(c: char) {
    c in {'<', '|', '>', '&', ';', '(', ')'}
  }

  predicate IsWord(c: char) {
    !IsSpace(c) && !IsSymbol(c)
  }

  // ---------------------------------------------------------------- tokens

  function SkipSpace(t: string, p: nat): (r: nat)
    requires p <= |t|
    ensures p <= r <= |t| && (r < |t| ==> !IsSpace(t[r]))
    decreases |t| - p
  {
    if p < |t| && IsSpace(t[p]) then SkipSpace(t, p + 1) else p
  }

  function WordEnd(t: string, p: nat): (r: nat)
    requires p <= |t|
    ensures p <= r <= |t| && (r < |t| ==> !IsWord(t[r]))
    decreases |t| - p
  {
    if p < |t| && IsWord(t[p]) then WordEnd(t, p + 1) else p
  }

  lemma {:induction false} WordRun(t: string, p: nat, e: nat)
    requires p <= e <= |t| && (e < |t| ==> !IsWord(t[e])) && forall k :: p <= k < e ==> IsWord(t[k])
    ensures WordEnd(t, p) == e
    decreases e - p
  {
    if p < e {
      WordRun(t, p + 1, e);
    }
  }

  /** kind is '\0' at the end, 'a' for a word, '+' for ">>", or the symbol itself. */
  datatype Token = Token(kind: char, q: nat, eq: nat, next: nat)

  function GetToken(t: string, p: nat): (k: Token)
    requires p <= |t|
    ensures p <= k.q <= k.eq <= k.next <= |t|
    ensures k.q == |t| <==> k.q == k.eq
  {
    var s := SkipSpace(t, p);
    if s == |t| then Token('\0', s, s, s)
    else if t[s] == '>' && s + 1 < |t| && t[s + 1] == '>' then Token('+', s, s + 2, SkipSpace(t, s + 2))
    else if t[s] == '>' then Token('>', s, s + 1, SkipSpace(t, s + 1))
    else if IsSymbol(t[s]) then Token(t[s], s, s + 1, SkipSpace(t, s + 1))
    else Token('a', s, WordEnd(t, s), SkipSpace(t, WordEnd(t, s)))
  }

  /** The next character that is not white space is one of toks. */
  predicate Peek(t: string, p: nat, toks: set<char>)
    requires p <= |t|
  {
    SkipSpace(t, p) < |t| && t[SkipSpace(t, p)] in toks
  }

  // ---------------------------------------------------------------- grammar

  function ModeOf(kind: char): Mode {
    if kind == '<' then Input else if kind == '>' then Output else Append
  }

  function ParseRedirs(t: string, p: nat, c: Cmd<Span>): (r: Parsed)
    requires p <= |t|
    ensures r.Ok? ==> p <= r.pos <= |t| && SkipSpace(t, r.pos) == r.pos
    decreases |t| - p
  {
    if !Peek(t, p, {'<', '>'}) then Ok(c, SkipSpace(t, p))
    else
      var op := GetToken(t, p);
      var f := GetToken(t, op.next);
      if f.kind != 'a' then Panic else ParseRedirs(t, f.next, Redir(c, Span(f.q, f.eq), ModeOf(op.kind)))
  }

  /** Storing an argument into the command that the redirections are wrapped around. */
  function AddArg<W>(c: Cmd<W>, w: W): Cmd<W> {
    match c
    case Exec(args) => Exec(args + [w])
    case Redir(d, f, m) => Redir(AddArg(d, w), f, m)
    case _ => c
  }

  function Argc<W>(c: Cmd<W>): nat {
    match c
    case Exec(args) => |args|
    case Redir(d, _, _) => Argc(d)
    case _ => 0
  }

  /** A command to execute, with redirections around it. */
  predicate Simple<W>(c: Cmd<W>) {
    c.Exec? || (c.Redir? && Simple(c.cmd))
  }

  lemma {:induction false} AddArgCount<W>(c: Cmd<W>, w: W)
    requires Simple(c)
    ensures Simple(AddArg(c, w)) && Argc(AddArg(c, w)) == Argc(c) + 1
  {
    if c.Redir? {
      AddArgCount(c.cmd, w);
    }
  }

  /** The argument loop of parseexec. */
  function ParseArgs(t: string, p: nat, c: Cmd<Span>): (r: Parsed)
    requires p <= |t|
    ensures r.Ok? ==> p <= r.pos <= |t| && SkipSpace(t, r.pos) == r.pos
    decreases |t| - p
  {
    if Peek(t, p, {'|', ')', '&', ';'}) then Ok(c, SkipSpace(t, p))
    else
      var w := GetToken(t, p);
      if w.kind == '\0' then Ok(c, w.next)
      else if w.kind != 'a' || Argc(c) + 1 >= MAXARGS then Panic
      else
        var r := ParseRedirs(t, w.next, AddArg(c, Span(w.q, w.eq)));
        if r.Panic? then Panic else ParseArgs(t, r.pos, r.cmd)
  }

  function ParseExec(t: string, p: nat): (r: Parsed)
    requires p <= |t|
    ensures r.Ok? ==> p <= r.pos <= |t| && SkipSpace(t, r.pos) == r.pos
    decreases |t| - p, 1
  {
    if Peek(t, p, {'('}) then ParseBlock(t, p)
    else
      var r := ParseRedirs(t, p, Exec([]));
      if r.Panic? then Panic else ParseArgs(t, r.pos, r.cmd)
  }

  function ParseBlock(t: string, p: nat): (r: Parsed)
    requires p <= |t|
    ensures r.Ok? ==> p <= r.pos <= |t| && SkipSpace(t, r.pos) == r.pos
    decreases |t| - p, 0
  {
    if !Peek(t, p, {'('}) then Panic
    else
      var r := ParseLine(t, GetToken(t, p).next);
      if r.Panic? || !Peek(t, r.pos, {')'}) then Panic
      else ParseRedirs(t, GetToken(t, r.pos).next, r.cmd)
  }

  function ParsePipe(t: string, p: nat): (r: Parsed)
    requires p <= |t|
    ensures r.Ok? ==> p <= r.pos <= |t| && SkipSpace(t, r.pos) == r.pos
    decreases |t| - p, 2
  {
    var l := ParseExec(t, p);
    if l.Panic? || !Peek(t, l.pos, {'|'}) then l
    else
      var r := ParsePipe(t, GetToken(t, l.pos).next);
      if r.Panic? then Panic else Ok(Pipe(l.cmd, r.cmd), r.pos)
  }

  /** The loop of parseline that collects '&'. */
  function ParseBacks(t: string, p: nat, c: Cmd<Span>): (r: Parsed)
    requires p <= |t|
    ensures r.Ok? && p <= r.pos <= |t| && SkipSpace(t, r.pos) == r.pos
    decreases |t| - p
  {
    if Peek(t, p, {'&'}) then ParseBacks(t, GetToken(t, p).next, Back(c)) else Ok(c, SkipSpace(t, p))
  }

  function ParseLine(t: string, p: nat): (r: Parsed)
    requires p <= |t|
    ensures r.Ok? ==> p <= r.pos <= |t| && SkipSpace(t, r.pos) == r.pos
    decreases |t| - p, 3
  {
    var l := ParsePipe(t, p);
    if l.Panic? then Panic
    else
      var b := ParseBacks(t, l.pos, l.cmd);
      if !Peek(t, b.pos, {';'}) then b
      else
        var r := ParseLine(t, GetToken(t, b.pos).next);
        if r.Panic? then Panic else Ok(List(b.cmd, r.cmd), r.pos)
  }

  /** parsecmd: the whole text, or a panic. */
  function ParseCmd(t: string): (r: Parsed) {
    var r := ParseLine(t, 0);
    if r.Ok? && SkipSpace(t, r.pos) == |t| then r else Panic
  }
}
