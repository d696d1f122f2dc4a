/** Printing a command with no more parentheses than it needs, and parsing it back; and
    simple commands with words and redirections in any order. */
module ShellPrint {
  import opened ShellGrammar

  /** A word that the shell reads as one word. */
  predicate GoodWord(w: string) {
    w != "" && forall i :: 0 <= i < |w| ==> IsWord(w[i]) && w[i] != '\0'
  }

  predicate AllGood(ws: seq<string>) {
    forall i :: 0 <= i < |ws| ==> GoodWord(ws[i])
  }

  lemma TailGood(ws: seq<string>)
    requires AllGood(ws) && ws != []
    ensures AllGood(ws[1..]) && |ws[1..]| == |ws| - 1
  {
  }

  /** Commands the shell can represent. */
  predicate Good(c: Cmd<string>) {
    match c
    case Exec(args) => |args| < MAXARGS && AllGood(args)
    case Redir(d, f, _) => Good(d) && GoodWord(f)
    case Pipe(l, r) => Good(l) && Good(r)
    case List(l, r) => Good(l) && Good(r)
    case Back(d) => Good(d)
  }

  function Op(m: Mode): string {
    match m
    case Input => "<"
    case Output => ">"
    case Append => ">>"
  }

  /** Each word with a space after it. */
  function Spaced(ws: seq<string>): string {
    if ws == [] then "" else ws[0] + " " + Spaced(ws[1..])
  }

  /** How tightly a command holds together: a list, then '&', a pipeline, a single command. */
  function Prec(c: Cmd<string>): nat {
    match c
    case List(_, _) => 0
    case Back(_) => 1
    case Pipe(_, _) => 2
    case _ => 3
  }

  function Body(c: Cmd<string>): string
    decreases c, 0
  {
    match c
    case Exec(args) => Spaced(args)
    case Redir(d, f, m) => Show(3, d) + (Op(m) + (f + " "))
    case Pipe(l, r) => Show(3, l) + ("|" + Show(2, r))
    case List(l, r) => Show(1, l) + (";" + Show(0, r))
    case Back(d) => Show(1, d) + "&"
  }

  /** A command where one of precedence k or more is wanted: in parentheses if it is less. */
  function Show(k: nat, c: Cmd<string>): string
    decreases c, 1
  {
    if Prec(c) < k then "(" + (Body(c) + ")") else Body(c)
  }

  function Print(c: Cmd<string>): string {
    Show(0, c)
  }

  // ---------------------------------------------------------------- reading spans

  function Slice(t: string, s: Span): string {
    if s.q <= s.eq <= |t| then t[s.q..s.eq] else ""
  }

  function Slices(t: string, args: seq<Span>): (ws: seq<string>)
    ensures |ws| == |args|
  {
    seq(|args|, i requires 0 <= i < |args| => Slice(t, args[i]))
  }

  function Words(t: string, c: Cmd<Span>): Cmd<string> {
    match c
    case Exec(args) => Exec(Slices(t, args))
    case Redir(d, f, m) => Redir(Words(t, d), Slice(t, f), m)
    case Pipe(l, r) => Pipe(Words(t, l), Words(t, r))
    case List(l, r) => List(Words(t, l), Words(t, r))
    case Back(d) => Back(Words(t, d))
  }

  lemma {:induction false} WordsAdd(t: string, c: Cmd<Span>, s: Span)
    ensures Words(t, AddArg(c, s)) == AddArg(Words(t, c), Slice(t, s)) && Argc(Words(t, c)) == Argc(c)
  {
    match c {
      case Exec(args) =>
        assert Slices(t, args + [s]) == Slices(t, args) + [Slice(t, s)];
      case Redir(d, _, _) =>
        WordsAdd(t, d, s);
      case _ =>
    }
  }

  // ---------------------------------------------------------------- texts in place

  /** s stands in t from p on. */
  predicate At(t: string, p: nat, s: string) {
    p + |s| <= |t| && t[p..p + |s|] == s
  }

  predicate CharAt(t: string, p: nat, c: char) {
    p < |t| && t[p] == c
  }

  lemma AtConcat(t: string, p: nat, a: string, b: string)
    requires At(t, p, a + b)
    ensures At(t, p, a) && At(t, p + |a|, b) && |a + b| == |a| + |b|
  {
    var s := t[p..p + |a + b|];
    assert t[p..p + |a|] == s[..|a|] == a;
    assert t[p + |a|..p + |a| + |b|] == s[|a|..] == b;
  }

  lemma AtChar(t: string, p: nat, s: string, i: nat)
    requires At(t, p, s) && i < |s|
    ensures CharAt(t, p + i, s[i])
  {
    assert t[p..p + |s|][i] == s[i];
  }

  /** The text ends at e, or goes on with one of the characters in stops. */
  predicate EndsAt(t: string, e: nat, stops: set<char>) {
    e == |t| || (e < |t| && t[e] in stops)
  }

  /** Nothing is skipped here. */
  predicate Clean(t: string, p: nat) {
    p == |t| || (p < |t| && !IsSpace(t[p]))
  }

  /** A word and the space after it are one token. */
  lemma WordAt(t: string, p: nat, w: string)
    requires At(t, p, w) && GoodWord(w) && CharAt(t, p + |w|, ' ') && Clean(t, p + |w| + 1)
    ensures GetToken(t, p) == Token('a', p, p + |w|, p + |w| + 1) && Slice(t, Span(p, p + |w|)) == w
    ensures p < |t| && IsWord(t[p]) && SkipSpace(t, p) == p
  {
    AtChar(t, p, w, 0);
    forall k | p <= k < p + |w|
      ensures IsWord(t[k])
    {
      AtChar(t, p, w, k - p);
    }
    WordRun(t, p, p + |w|);
    assert SkipSpace(t, p + |w| + 1) == p + |w| + 1;
  }

  lemma SymbolAt(t: string, p: nat, c: char)
    requires CharAt(t, p, c) && c in {'<', '|', '&', ';', '(', ')'} && Clean(t, p + 1)
    ensures SkipSpace(t, p) == p && GetToken(t, p) == Token(c, p, p + 1, p + 1)
  {
    assert SkipSpace(t, p + 1) == p + 1;
  }

  lemma OpAt(t: string, e: nat, m: Mode)
    requires At(t, e, Op(m)) && e + |Op(m)| < |t| && IsWord(t[e + |Op(m)|])
    ensures Peek(t, e, {'<', '>'}) && GetToken(t, e).next == e + |Op(m)| && ModeOf(GetToken(t, e).kind) == m
  {
    AtChar(t, e, Op(m), 0);
    if m.Append? {
      AtChar(t, e, Op(m), 1);
    }
  }

  // ---------------------------------------------------------------- simple commands

  /** parseexec's loop, entered before the redirections. */
  function Loop(t: string, p: nat, c: Cmd<Span>): Parsed
    requires p <= |t|
  {
    var r := ParseRedirs(t, p, c);
    if r.Panic? then Panic else ParseArgs(t, r.pos, r.cmd)
  }

  /** At a word there is neither a redirection nor the end of the arguments. */
  lemma NoSymbol(t: string, p: nat, c: Cmd<Span>)
    requires p < |t| && IsWord(t[p]) && SkipSpace(t, p) == p
    ensures ParseRedirs(t, p, c) == Ok(c, p) && !Peek(t, p, {'|', ')', '&', ';'})
  {
    hide GetToken;
  }

  lemma LoopWord(t: string, p: nat, w: string, c: Cmd<Span>)
    requires At(t, p, w) && GoodWord(w) && CharAt(t, p + |w|, ' ') && Clean(t, p + |w| + 1) && Argc(c) + 1 < MAXARGS
    ensures Loop(t, p, c) == Loop(t, p + |w| + 1, AddArg(c, Span(p, p + |w|))) && Slice(t, Span(p, p + |w|)) == w
  {
    hide GetToken, SkipSpace, GoodWord, At, Slice, Peek, ParseRedirs, IsWord;
    WordAt(t, p, w);
    NoSymbol(t, p, c);
  }

  lemma RedirStep(t: string, p: nat, f: string, m: Mode, c: Cmd<Span>)
    requires At(t, p, Op(m)) && At(t, p + |Op(m)|, f) && GoodWord(f)
    requires var q := p + |Op(m)|; CharAt(t, q + |f|, ' ') && Clean(t, q + |f| + 1)
    ensures var q := p + |Op(m)|;
            ParseRedirs(t, p, c) == ParseRedirs(t, q + |f| + 1, Redir(c, Span(q, q + |f|), m))
            && Slice(t, Span(q, q + |f|)) == f
  {
    hide GetToken, Peek, ModeOf, GoodWord;
    WordAt(t, p + |Op(m)|, f);
    OpAt(t, p, m);
  }

  lemma LoopRedir(t: string, p: nat, f: string, m: Mode, c: Cmd<Span>)
    requires At(t, p, Op(m)) && At(t, p + |Op(m)|, f) && GoodWord(f)
    requires var q := p + |Op(m)|; CharAt(t, q + |f|, ' ') && Clean(t, q + |f| + 1)
    ensures var q := p + |Op(m)|; Loop(t, p, c) == Loop(t, q + |f| + 1, Redir(c, Span(q, q + |f|), m))
  {
    hide ParseRedirs, ParseArgs;
    RedirStep(t, p, f, m, c);
  }

  lemma LoopEnd(t: string, e: nat, c: Cmd<Span>)
    requires EndsAt(t, e, {'|', ';', '&', ')'})
    ensures ParseRedirs(t, e, c) == Ok(c, e) && Loop(t, e, c) == Ok(c, e)
  {
  }

  /** A word or a redirection. */
  datatype Piece = Word(w: string) | Redirect(f: string, m: Mode)

  predicate GoodPiece(x: Piece) {
    match x
    case Word(w) => GoodWord(w)
    case Redirect(f, _) => GoodWord(f)
  }

  function ShowPiece(x: Piece): string {
    match x
    case Word(w) => w + " "
    case Redirect(f, m) => Op(m) + (f + " ")
  }

  function ShowPieces(xs: seq<Piece>): string {
    if xs == [] then "" else ShowPiece(xs[0]) + ShowPieces(xs[1..])
  }

  function Applied(c: Cmd<string>, x: Piece): Cmd<string> {
    match x
    case Word(w) => AddArg(c, w)
    case Redirect(f, m) => Redir(c, f, m)
  }

  /** What a simple command means: its words are its arguments, in order, whatever stands
      between them; each redirection is put around the ones before it. */
  function Meaning(c: Cmd<string>, xs: seq<Piece>): Cmd<string>
    decreases |xs|
  {
    if xs == [] then c else Meaning(Applied(c, xs[0]), xs[1..])
  }

  function IsOne(x: Piece): nat {
    if x.Word? then 1 else 0
  }

  function CountWords(xs: seq<Piece>): nat {
    if xs == [] then 0 else IsOne(xs[0]) + CountWords(xs[1..])
  }

  predicate AllGoodPieces(xs: seq<Piece>) {
    forall i :: 0 <= i < |xs| ==> GoodPiece(xs[i])
  }

  /** No piece, and no stop, starts with white space. */
  lemma PiecesClean(t: string, p: nat, xs: seq<Piece>)
    requires At(t, p, ShowPieces(xs)) && AllGoodPieces(xs) && EndsAt(t, p + |ShowPieces(xs)|, {'|', ';', '&', ')'})
    ensures Clean(t, p) && !CharAt(t, p, '(')
  {
    if xs != [] {
      assert GoodPiece(xs[0]);
      AtChar(t, p, ShowPieces(xs), 0);
    }
  }

  lemma {:induction false} PiecesBack(t: string, p: nat, xs: seq<Piece>, c: Cmd<Span>) returns (d: Cmd<Span>)
    requires At(t, p, ShowPieces(xs)) && AllGoodPieces(xs) && EndsAt(t, p + |ShowPieces(xs)|, {'|', ';', '&', ')'})
    requires Argc(c) + CountWords(xs) < MAXARGS && Simple(Words(t, c))
    ensures Loop(t, p, c) == Ok(d, p + |ShowPieces(xs)|) && Words(t, d) == Meaning(Words(t, c), xs)
    decreases |xs|
  {
    hide Loop, ParseRedirs, At, Words, Argc, Simple, Applied, IsOne, ShowPiece, Clean, EndsAt;
    if xs == [] {
      LoopEnd(t, p, c);
      d := c;
    } else {
      var rest := xs[1..];
      GoodTail(xs);
      AtConcat(t, p, ShowPiece(xs[0]), ShowPieces(rest));
      var n := p + |ShowPiece(xs[0])|;
      PiecesClean(t, n, rest);
      var c' := PieceBack(t, p, xs[0], c);
      d := PiecesBack(t, n, rest, c');
    }
  }

  lemma GoodTail(xs: seq<Piece>)
    requires AllGoodPieces(xs) && xs != []
    ensures GoodPiece(xs[0]) && AllGoodPieces(xs[1..])
  {
  }

  lemma PieceBack(t: string, p: nat, x: Piece, c: Cmd<Span>) returns (c': Cmd<Span>)
    requires At(t, p, ShowPiece(x)) && GoodPiece(x) && Clean(t, p + |ShowPiece(x)|)
    requires Argc(c) + IsOne(x) < MAXARGS && Simple(Words(t, c))
    ensures Loop(t, p, c) == Loop(t, p + |ShowPiece(x)|, c') && Argc(c') == Argc(c) + IsOne(x)
    ensures Words(t, c') == Applied(Words(t, c), x) && Simple(Words(t, c'))
  {
    hide Loop, Words, Argc, Simple, At;
    if x.Word? {
      c' := WordBack(t, p, x.w, c);
    } else {
      c' := RedirectBack(t, p, x.f, x.m, c);
    }
  }

  lemma WordBack(t: string, p: nat, w: string, c: Cmd<Span>) returns (c': Cmd<Span>)
    requires At(t, p, w + " ") && GoodWord(w) && Clean(t, p + |w + " "|) && Argc(c) + 1 < MAXARGS && Simple(Words(t, c))
    ensures Loop(t, p, c) == Loop(t, p + |w + " "|, c') && Argc(c') == Argc(c) + 1
    ensures Words(t, c') == AddArg(Words(t, c), w) && Simple(Words(t, c'))
  {
    hide Loop;
    AtConcat(t, p, w, " ");
    AtChar(t, p + |w|, " ", 0);
    LoopWord(t, p, w, c);
    c' := AddArg(c, Span(p, p + |w|));
    WordsAdd(t, c, Span(p, p + |w|));
    WordsAdd(t, c', Span(0, 0));
    AddArgCount(Words(t, c), w);
  }

  lemma RedirectBack(t: string, p: nat, f: string, m: Mode, c: Cmd<Span>) returns (c': Cmd<Span>)
    requires At(t, p, Op(m) + (f + " ")) && GoodWord(f) && Clean(t, p + |Op(m) + (f + " ")|) && Simple(Words(t, c))
    ensures Loop(t, p, c) == Loop(t, p + |Op(m) + (f + " ")|, c') && Argc(c') == Argc(c)
    ensures Words(t, c') == Redir(Words(t, c), f, m) && Simple(Words(t, c'))
  {
    hide Loop, ParseRedirs;
    var q := p + |Op(m)|;
    AtConcat(t, p, Op(m), f + " ");
    AtConcat(t, q, f, " ");
    AtChar(t, q + |f|, " ", 0);
    LoopRedir(t, p, f, m, c);
    RedirStep(t, p, f, m, c);
    c' := Redir(c, Span(q, q + |f|), m);
  }

  /** What has been parsed ends the line here. */
  lemma LineOfPipe(t: string, p: nat, d: Cmd<Span>, e: nat)
    requires p <= |t| && ParsePipe(t, p) == Ok(d, e) && EndsAt(t, e, {')'})
    ensures ParseLine(t, p) == Ok(d, e)
  {
  }

  lemma LineOfExec(t: string, p: nat, d: Cmd<Span>, e: nat)
    requires p <= |t| && ParseExec(t, p) == Ok(d, e) && EndsAt(t, e, {')'})
    ensures ParsePipe(t, p) == Ok(d, e) && ParseLine(t, p) == Ok(d, e)
  {
    LineOfPipe(t, p, d, e);
  }

  /** Words and redirections in any order are one command with all the words as arguments. */
  lemma MixedCommand(xs: seq<Piece>)
    requires AllGoodPieces(xs) && CountWords(xs) < MAXARGS
    ensures ParseCmd(ShowPieces(xs)).Ok?
    ensures Words(ShowPieces(xs), ParseCmd(ShowPieces(xs)).cmd) == Meaning(Exec([]), xs)
  {
    hide ParseExec, ParseLine, Loop, ShowPieces, Meaning;
    var t := ShowPieces(xs);
    assert t[0..|t|] == t;
    PiecesClean(t, 0, xs);
    var d := PiecesBack(t, 0, xs, Exec([]));
    assert Words(t, Exec([])) == Exec([]);
    SimpleParse(t, 0);
    LineOfExec(t, 0, d, |t|);
  }

  // ---------------------------------------------------------------- where the parts of a printed command are

  function Nodes(c: Cmd<string>): (n: nat)
    ensures n > 0
  {
    match c
    case Exec(_) => 1
    case Redir(d, _, _) => 1 + Nodes(d)
    case Pipe(l, r) => 1 + Nodes(l) + Nodes(r)
    case List(l, r) => 1 + Nodes(l) + Nodes(r)
    case Back(d) => 1 + Nodes(d)
  }

  function Length(c: Cmd<string>): nat
    decreases c, 0
  {
    match c
    case Exec(args) => |Spaced(args)|
    case Redir(d, f, m) => Width(3, d) + |Op(m)| + |f| + 1
    case Pipe(l, r) => Width(3, l) + 1 + Width(2, r)
    case List(l, r) => Width(1, l) + 1 + Width(0, r)
    case Back(d) => Width(1, d) + 1
  }

  function Width(k: nat, c: Cmd<string>): nat
    decreases c, 1
  {
    if Prec(c) < k then Length(c) + 2 else Length(c)
  }

  /** The printing of c stands in t from p on. */
  predicate Laid(t: string, p: nat, c: Cmd<string>)
    decreases c, 0
  {
    match c
    case Exec(args) => At(t, p, Spaced(args))
    case Redir(d, f, m) =>
      var e := p + Width(3, d);
      LaidAt(t, p, 3, d) && At(t, e, Op(m)) && At(t, e + |Op(m)|, f) && CharAt(t, e + |Op(m)| + |f|, ' ')
    case Pipe(l, r) => LaidAt(t, p, 3, l) && CharAt(t, p + Width(3, l), '|') && LaidAt(t, p + Width(3, l) + 1, 2, r)
    case List(l, r) => LaidAt(t, p, 1, l) && CharAt(t, p + Width(1, l), ';') && LaidAt(t, p + Width(1, l) + 1, 0, r)
    case Back(d) => LaidAt(t, p, 1, d) && CharAt(t, p + Width(1, d), '&')
  }

  predicate LaidAt(t: string, p: nat, k: nat, c: Cmd<string>)
    decreases c, 1
  {
    if Prec(c) < k then CharAt(t, p, '(') && Laid(t, p + 1, c) && CharAt(t, p + 1 + Length(c), ')') else Laid(t, p, c)
  }

  lemma {:induction false} BodyLaid(t: string, p: nat, c: Cmd<string>)
    requires At(t, p, Body(c))
    ensures Laid(t, p, c) && Length(c) == |Body(c)|
    decreases Nodes(c), 0
  {
    hide Show, LaidAt, Width, At;
    match c {
      case Exec(args) =>
      case Redir(d, f, m) =>
        RedirLaid(t, p, d, f, m);
      case Pipe(l, r) =>
        PairLaid(t, p, 3, l, "|", 2, r);
      case List(l, r) =>
        PairLaid(t, p, 1, l, ";", 0, r);
      case Back(d) =>
        AtConcat(t, p, Show(1, d), "&");
        ShowLaid(t, p, 1, d);
        AtChar(t, p + |Show(1, d)|, "&", 0);
    }
  }

  lemma RedirLaid(t: string, p: nat, d: Cmd<string>, f: string, m: Mode)
    requires At(t, p, Show(3, d) + (Op(m) + (f + " ")))
    ensures var e := p + Width(3, d);
            && LaidAt(t, p, 3, d) && At(t, e, Op(m)) && At(t, e + |Op(m)|, f) && CharAt(t, e + |Op(m)| + |f|, ' ')
            && |Show(3, d) + (Op(m) + (f + " "))| == Width(3, d) + |Op(m)| + |f| + 1
    decreases Nodes(d), 2
  {
    hide Show, LaidAt, Width;
    AtConcat(t, p, Show(3, d), Op(m) + (f + " "));
    ShowLaid(t, p, 3, d);
    var e := p + Width(3, d);
    AtConcat(t, e, Op(m), f + " ");
    AtConcat(t, e + |Op(m)|, f, " ");
    AtChar(t, e + |Op(m)| + |f|, " ", 0);
  }

  lemma PairLaid(t: string, p: nat, j: nat, l: Cmd<string>, op: string, k: nat, r: Cmd<string>)
    requires |op| == 1 && At(t, p, Show(j, l) + (op + Show(k, r)))
    ensures LaidAt(t, p, j, l) && CharAt(t, p + Width(j, l), op[0]) && LaidAt(t, p + Width(j, l) + 1, k, r)
    ensures |Show(j, l) + (op + Show(k, r))| == Width(j, l) + 1 + Width(k, r)
    decreases Nodes(l) + Nodes(r), 2
  {
    hide Show, LaidAt, Width;
    AtConcat(t, p, Show(j, l), op + Show(k, r));
    ShowLaid(t, p, j, l);
    AtConcat(t, p + |Show(j, l)|, op, Show(k, r));
    AtChar(t, p + |Show(j, l)|, op, 0);
    ShowLaid(t, p + |Show(j, l)| + 1, k, r);
  }

  lemma ShowLaid(t: string, p: nat, k: nat, c: Cmd<string>)
    requires At(t, p, Show(k, c))
    ensures LaidAt(t, p, k, c) && |Show(k, c)| == Width(k, c)
    decreases Nodes(c), 1
  {
    hide Body, Laid;
    if Prec(c) < k {
      AtConcat(t, p, "(", Body(c) + ")");
      AtChar(t, p, "(", 0);
      AtConcat(t, p + 1, Body(c), ")");
      BodyLaid(t, p + 1, c);
      AtChar(t, p + 1 + |Body(c)|, ")", 0);
    } else {
      BodyLaid(t, p, c);
    }
  }

  /** Nothing printed starts with white space. */
  lemma {:induction false} StartsClean(t: string, p: nat, k: nat, c: Cmd<string>)
    requires Good(c) && LaidAt(t, p, k, c) && EndsAt(t, p + Width(k, c), {'|', ';', '&', ')', '<', '>'})
    ensures Clean(t, p) && (CharAt(t, p, '(') <==> Prec(c) < k || Opens(c))
    decreases Nodes(c)
  {
    hide At, IsSymbol, AllGood;
    if Prec(c) >= k {
      match c {
        case Exec(args) =>
          assert Width(k, c) == |Spaced(args)|;
          WordsClean(t, p, args);
        case Redir(d, _, m) =>
          AtChar(t, p + Width(3, d), Op(m), 0);
          StartsClean(t, p, 3, d);
        case Pipe(l, _) =>
          StartsClean(t, p, 3, l);
        case List(l, _) =>
          StartsClean(t, p, 1, l);
        case Back(d) =>
          StartsClean(t, p, 1, d);
      }
    }
  }

  /** The printing of c, without parentheses around it, starts with one. */
  predicate Opens(c: Cmd<string>) {
    match c
    case Exec(_) => false
    case Redir(d, _, _) => Prec(d) < 3 || Opens(d)
    case Pipe(l, _) => Prec(l) < 3 || Opens(l)
    case List(l, _) => Prec(l) < 1 || Opens(l)
    case Back(d) => Prec(d) < 1 || Opens(d)
  }

  lemma WordsClean(t: string, p: nat, ws: seq<string>)
    requires At(t, p, Spaced(ws)) && AllGood(ws) && EndsAt(t, p + |Spaced(ws)|, {'|', ';', '&', ')', '<', '>'})
    ensures Clean(t, p) && !CharAt(t, p, '(')
  {
    if ws != [] {
      assert GoodWord(ws[0]);
      assert Spaced(ws)[0] == ws[0][0];
      AtChar(t, p, Spaced(ws), 0);
    }
  }

  // ---------------------------------------------------------------- parsing what was printed

  lemma {:induction false} WordsBack(t: string, p: nat, ws: seq<string>, args: seq<Span>) returns (all: seq<Span>)
    requires At(t, p, Spaced(ws)) && AllGood(ws) && EndsAt(t, p + |Spaced(ws)|, {'|', ';', '&', ')', '<', '>'})
             && |args| + |ws| < MAXARGS
    ensures Loop(t, p, Exec(args)) == Loop(t, p + |Spaced(ws)|, Exec(all)) && Slices(t, all) == Slices(t, args) + ws
    decreases |ws|
  {
    hide Loop, At;
    if ws == [] {
      all := args;
    } else {
      TailGood(ws);
      var w, rest := ws[0], ws[1..];
      AtConcat(t, p, w + " ", Spaced(rest));
      AtConcat(t, p, w, " ");
      AtChar(t, p + |w|, " ", 0);
      WordsClean(t, p + |w| + 1, rest);
      LoopWord(t, p, w, Exec(args));
      all := WordsBack(t, p + |w| + 1, rest, args + [Span(p, p + |w|)]);
      assert Slices(t, args + [Span(p, p + |w|)]) + rest == Slices(t, args) + ws;
    }
  }

  /** What parseexec or parseblock has left to do at e. */
  function Rest(t: string, e: nat, d: Cmd<Span>, simple: bool): Parsed
    requires e <= |t|
  {
    if simple then Loop(t, e, d) else ParseRedirs(t, e, d)
  }

  lemma BlockParse(t: string, p: nat, e: nat, d: Cmd<Span>)
    requires CharAt(t, p, '(') && p < e && CharAt(t, e, ')') && Clean(t, p + 1) && Clean(t, e + 1)
             && ParseLine(t, p + 1) == Ok(d, e)
    ensures ParseExec(t, p) == ParseRedirs(t, e + 1, d)
  {
    SymbolAt(t, p, '(');
    SymbolAt(t, e, ')');
  }

  /** A single command; redirections may follow. */
  lemma {:induction false} UnitBack(t: string, p: nat, c: Cmd<string>) returns (d: Cmd<Span>)
    requires Good(c) && LaidAt(t, p, 3, c) && EndsAt(t, p + Width(3, c), {'|', ';', '&', ')', '<', '>'})
    ensures p <= |t| && ParseExec(t, p) == Rest(t, p + Width(3, c), d, Simple(c)) && Words(t, d) == c
    decreases |t| - p, Nodes(c), 1
  {
    hide ParseExec, ParseLine, Loop, ParseRedirs, Words;
    if Prec(c) < 3 {
      d := BlockUnit(t, p, c);
    } else if c.Exec? {
      d := WordsUnit(t, p, c.args);
    } else {
      d := RedirUnit(t, p, c);
    }
  }

  lemma BlockUnit(t: string, p: nat, c: Cmd<string>) returns (d: Cmd<Span>)
    requires Good(c) && CharAt(t, p, '(') && Laid(t, p + 1, c) && CharAt(t, p + 1 + Length(c), ')')
    requires EndsAt(t, p + Length(c) + 2, {'|', ';', '&', ')', '<', '>'})
    ensures ParseExec(t, p) == ParseRedirs(t, p + Length(c) + 2, d) && Words(t, d) == c
    decreases |t| - p, Nodes(c), 0
  {
    hide ParseExec, ParseLine, ParseRedirs, Words, Laid, Length, Good;
    LaidIsShown(t, p + 1, c);
    StartsClean(t, p + 1, 0, c);
    d := LineBack(t, p + 1, c);
    BlockParse(t, p, p + 1 + Length(c), d);
  }

  lemma WordsUnit(t: string, p: nat, args: seq<string>) returns (d: Cmd<Span>)
    requires At(t, p, Spaced(args)) && AllGood(args) && |args| < MAXARGS
             && EndsAt(t, p + |Spaced(args)|, {'|', ';', '&', ')', '<', '>'})
    ensures p <= |t| && ParseExec(t, p) == Loop(t, p + |Spaced(args)|, d) && Words(t, d) == Exec(args)
  {
    hide ParseExec, Loop;
    WordsClean(t, p, args);
    SimpleParse(t, p);
    var all := WordsBack(t, p, args, []);
    d := Exec(all);
  }

  lemma RedirUnit(t: string, p: nat, c: Cmd<string>) returns (d: Cmd<Span>)
    requires c.Redir? && Good(c) && Laid(t, p, c) && EndsAt(t, p + Length(c), {'|', ';', '&', ')', '<', '>'})
    ensures p <= |t| && ParseExec(t, p) == Rest(t, p + Length(c), d, Simple(c.cmd)) && Words(t, d) == c
    decreases |t| - p, Nodes(c.cmd), 6
  {
    hide ParseExec, Rest, LaidAt, Width, Words;
    var e := p + Width(3, c.cmd);
    AtChar(t, e, Op(c.mode), 0);
    var y := UnitBack(t, p, c.cmd);
    d := RestStep(t, p, e, y, c.file, c.mode, Simple(c.cmd));
  }

  lemma SimpleParse(t: string, p: nat)
    requires Clean(t, p) && !CharAt(t, p, '(')
    ensures ParseExec(t, p) == Loop(t, p, Exec([]))
  {
  }

  lemma RestStep(t: string, p: nat, e: nat, y: Cmd<Span>, f: string, m: Mode, simple: bool) returns (d: Cmd<Span>)
    requires p <= |t| && At(t, e, Op(m)) && At(t, e + |Op(m)|, f) && GoodWord(f)
    requires var q := e + |Op(m)|; CharAt(t, q + |f|, ' ') && Clean(t, q + |f| + 1)
    requires ParseExec(t, p) == Rest(t, e, y, simple)
    ensures ParseExec(t, p) == Rest(t, e + |Op(m)| + |f| + 1, d, simple) && Words(t, d) == Redir(Words(t, y), f, m)
  {
    hide ParseExec, ParseRedirs, Loop;
    var q := e + |Op(m)|;
    LoopRedir(t, e, f, m, y);
    RedirStep(t, e, f, m, y);
    d := Redir(y, Span(q, q + |f|), m);
  }

  lemma ExecBack(t: string, p: nat, c: Cmd<string>) returns (d: Cmd<Span>)
    requires Good(c) && LaidAt(t, p, 3, c) && EndsAt(t, p + Width(3, c), {'|', ';', '&', ')'})
    ensures p <= |t| && ParseExec(t, p) == Ok(d, p + Width(3, c)) && Words(t, d) == c
    decreases |t| - p, Nodes(c), 2
  {
    hide ParseExec, Loop, ParseRedirs;
    d := UnitBack(t, p, c);
    LoopEnd(t, p + Width(3, c), d);
  }

  lemma PipeParse(t: string, p: nat, x: Cmd<Span>, e: nat, y: Cmd<Span>, n: nat)
    requires p <= |t| && ParseExec(t, p) == Ok(x, e) && CharAt(t, e, '|') && Clean(t, e + 1)
             && ParsePipe(t, e + 1) == Ok(y, n)
    ensures ParsePipe(t, p) == Ok(Pipe(x, y), n)
  {
    SymbolAt(t, e, '|');
  }

  lemma {:induction false} PipeBack(t: string, p: nat, c: Cmd<string>) returns (d: Cmd<Span>)
    requires Good(c) && LaidAt(t, p, 2, c) && EndsAt(t, p + Width(2, c), {';', '&', ')'})
    ensures p <= |t| && ParsePipe(t, p) == Ok(d, p + Width(2, c)) && Words(t, d) == c
    decreases |t| - p, Nodes(c), 3
  {
    hide ParseExec;
    if c.Pipe? {
      d := PipesBack(t, p, c.left, c.right);
    } else {
      d := ExecBack(t, p, c);
    }
  }

  lemma PipesBack(t: string, p: nat, l: Cmd<string>, r: Cmd<string>) returns (d: Cmd<Span>)
    requires Good(l) && Good(r) && LaidAt(t, p, 3, l) && CharAt(t, p + Width(3, l), '|')
             && LaidAt(t, p + Width(3, l) + 1, 2, r)
    requires EndsAt(t, p + Width(3, l) + 1 + Width(2, r), {';', '&', ')'})
    ensures p <= |t| && ParsePipe(t, p) == Ok(d, p + Width(3, l) + 1 + Width(2, r)) && Words(t, d) == Pipe(l, r)
    decreases |t| - p, Nodes(l) + Nodes(r), 6
  {
    hide ParseExec, ParsePipe, LaidAt, Width, Good;
    var e := p + Width(3, l);
    var x := ExecBack(t, p, l);
    StartsClean(t, e + 1, 2, r);
    var y := PipeBack(t, e + 1, r);
    PipeParse(t, p, x, e, y, e + 1 + Width(2, r));
    d := Pipe(x, y);
  }

  lemma BacksStep(t: string, e: nat, y: Cmd<Span>)
    requires CharAt(t, e, '&') && Clean(t, e + 1)
    ensures ParseBacks(t, e, y) == ParseBacks(t, e + 1, Back(y))
  {
    SymbolAt(t, e, '&');
  }

  /** A pipeline and the '&'s after it. */
  lemma {:induction false} BacksBack(t: string, p: nat, c: Cmd<string>) returns (x: Cmd<Span>, n: nat, d: Cmd<Span>)
    requires Good(c) && LaidAt(t, p, 1, c) && EndsAt(t, p + Width(1, c), {';', '&', ')'})
    ensures p <= |t| && n <= |t| && ParsePipe(t, p) == Ok(x, n)
            && ParseBacks(t, n, x) == ParseBacks(t, p + Width(1, c), d)
    ensures Words(t, d) == c
    decreases |t| - p, Nodes(c), 4
  {
    hide ParsePipe, ParseBacks, Op;
    if c.Back? {
      var y;
      x, n, y := BacksBack(t, p, c.cmd);
      BacksStep(t, p + Width(1, c.cmd), y);
      d := Back(y);
    } else {
      d := PipeBack(t, p, c);
      x, n := d, p + Width(1, c);
    }
  }

  lemma LineParse(t: string, p: nat, x: Cmd<Span>, n: nat, d: Cmd<Span>, e: nat)
    requires p <= |t| && n <= |t| && ParsePipe(t, p) == Ok(x, n) && EndsAt(t, e, {';', ')'})
             && ParseBacks(t, n, x) == ParseBacks(t, e, d)
    ensures !CharAt(t, e, ';') ==> ParseLine(t, p) == Ok(d, e)
    ensures CharAt(t, e, ';') && Clean(t, e + 1) ==>
              ParseLine(t, p) == var r := ParseLine(t, e + 1); if r.Panic? then Panic else Ok(List(d, r.cmd), r.pos)
  {
    assert ParseBacks(t, e, d) == Ok(d, e);
    if CharAt(t, e, ';') && Clean(t, e + 1) {
      SymbolAt(t, e, ';');
    }
  }

  /** A printed command, at the end of the text or before a parenthesis, is parsed back. */
  lemma {:induction false} LineBack(t: string, p: nat, c: Cmd<string>) returns (d: Cmd<Span>)
    requires Good(c) && Laid(t, p, c) && EndsAt(t, p + Length(c), {')'})
    ensures p <= |t| && ParseLine(t, p) == Ok(d, p + Length(c)) && Words(t, d) == c
    decreases |t| - p, Nodes(c), 5
  {
    hide ParseLine, ParsePipe, ParseBacks;
    if c.List? {
      d := ListBack(t, p, c.left, c.right);
    } else {
      var x, n, y := BacksBack(t, p, c);
      LineParse(t, p, x, n, y, p + Length(c));
      d := y;
    }
  }

  lemma ListBack(t: string, p: nat, l: Cmd<string>, r: Cmd<string>) returns (d: Cmd<Span>)
    requires Good(l) && Good(r) && LaidAt(t, p, 1, l) && CharAt(t, p + Width(1, l), ';')
             && Laid(t, p + Width(1, l) + 1, r)
    requires EndsAt(t, p + Width(1, l) + 1 + Length(r), {')'})
    ensures p <= |t| && ParseLine(t, p) == Ok(d, p + Width(1, l) + 1 + Length(r)) && Words(t, d) == List(l, r)
    decreases |t| - p, Nodes(l) + Nodes(r), 6
  {
    hide ParseLine, ParsePipe, ParseBacks, LaidAt, Laid, Width, Length;
    var e := p + Width(1, l);
    var x, n, y := BacksBack(t, p, l);
    LaidIsShown(t, e + 1, r);
    StartsClean(t, e + 1, 0, r);
    var z := LineBack(t, e + 1, r);
    LineParse(t, p, x, n, y, e);
    d := List(y, z);
  }

  lemma LaidIsShown(t: string, p: nat, c: Cmd<string>)
    requires Laid(t, p, c)
    ensures LaidAt(t, p, 0, c) && Width(0, c) == Length(c)
  {
  }

  /** Parsing undoes printing. */
  lemma RoundTrip(c: Cmd<string>)
    requires Good(c)
    ensures ParseCmd(Print(c)).Ok? && Words(Print(c), ParseCmd(Print(c)).cmd) == c
  {
    var t := Print(c);
    assert t[0..|t|] == t;
    ShowLaid(t, 0, 0, c);
    var d := LineBack(t, 0, c);
  }
}
