/** The Connect Four player of user/c4.c: alpha-beta search that plays moves on the one
    global board and takes them back. */
module ConnectFour {

  const ROWS := 6
  const COLS := 7
  const WIN := 1_000_000
  const INFINITY := 10_000_000

  /** The board, row by row from the top. */
  type Board = b: seq<char> | |b| == ROWS * COLS witness seq(ROWS * COLS, _ => '.')

  function Index(r: nat, c: nat): (i: nat)
    requires r < ROWS && c < COLS
    ensures i < ROWS * COLS && i / COLS == r && i % COLS == c
  {
    r * COLS + c
  }

  function Cell(b: Board, r: nat, c: nat): char
    requires r < ROWS && c < COLS
  {
    b[Index(r, c)]
  }

  // ---------------------------------------------------------------- moves

  /** The lowest empty row of a column among the rows up to r, or -1. */
  function OpenFrom(b: Board, c: nat, r: int): (o: int)
    requires c < COLS && -1 <= r < ROWS
    ensures -1 <= o <= r && (o >= 0 ==> Cell(b, o, c) == '.')
    ensures forall x :: o < x <= r ==> Cell(b, x, c) != '.'
  {
    if r < 0 || Cell(b, r, c) == '.' then r else OpenFrom(b, c, r - 1)
  }

  function OpenRow(b: Board, c: nat): int
    requires c < COLS
  {
    OpenFrom(b, c, ROWS - 1)
  }

  predicate IsOpen(b: Board, c: nat) {
    c < COLS && OpenRow(b, c) >= 0
  }

  predicate Full(b: Board) {
    forall c :: 0 <= c < COLS ==> !IsOpen(b, c)
  }

  function Play(b: Board, c: nat, piece: char): (b': Board)
    requires IsOpen(b, c)
  {
    b[Index(OpenRow(b, c), c) := piece]
  }

  // ---------------------------------------------------------------- winning

  predicate OnBoard(r: int, c: int, dr: int, dc: int) {
    0 <= r < ROWS && 0 <= c < COLS && 0 <= r + 3 * dr < ROWS && 0 <= c + 3 * dc < COLS && -1 <= dr <= 1 && -1 <= dc <= 1
  }

  /** The k-th cell of the window of four from (r, c) in direction (dr, dc). */
  function WindowCell(b: Board, r: int, c: int, dr: int, dc: int, k: nat): char
    requires OnBoard(r, c, dr, dc) && k < 4
  {
    Cell(b, r + k * dr, c + k * dc)
  }

  predicate Line(b: Board, p: char, r: int, c: int, dr: int, dc: int) {
    OnBoard(r, c, dr, dc) && forall k :: 0 <= k < 4 ==> WindowCell(b, r, c, dr, dc, k) == p
  }

  /** Four in a row somewhere, in any of the four directions. */
  ghost predicate Wins(b: Board, p: char) {
    exists r, c, dr, dc :: (dr, dc) in {(0, 1), (1, 0), (-1, 1), (1, 1)} && Line(b, p, r, c, dr, dc)
  }

  // ---------------------------------------------------------------- evaluation

  function Other(piece: char): char {
    if piece == 'O' then 'X' else 'O'
  }

  function Count(w: seq<char>, x: char): (n: nat)
    ensures n <= |w|
  {
    if w == [] then 0 else Count(w[..|w| - 1], x) + if w[|w| - 1] == x then 1 else 0
  }

  function WindowScore(own: nat, empty: nat, opp: nat): (s: int)
    ensures -80 <= s <= 1000
  {
    (if own == 4 then 1000 else if own == 3 && empty == 1 then 100 else if own == 2 && empty == 2 then 10 else 0)
    - (if opp == 3 && empty == 1 then 80 else 0)
  }

  function Window(b: Board, r: int, c: int, dr: int, dc: int): (w: seq<char>)
    requires OnBoard(r, c, dr, dc)
    ensures |w| == 4
  {
    seq(4, k requires 0 <= k < 4 => WindowCell(b, r, c, dr, dc, k))
  }

  function Worth(w: seq<char>, piece: char): (s: int)
    ensures -80 <= s <= 1000
  {
    WindowScore(Count(w, piece), Count(w, '.'), Count(w, Other(piece)))
  }

  function WorthAt(b: Board, piece: char, r: int, c: int, dr: int, dc: int): (s: int)
    ensures -80 <= s <= 1000
  {
    if OnBoard(r, c, dr, dc) then Worth(Window(b, r, c, dr, dc), piece) else 0
  }

  /** The windows that start in the first n columns of row r. */
  function RowWorth(b: Board, piece: char, r: int, n: nat, dr: int, dc: int): (s: int)
    ensures -80 * n <= s <= 1000 * n
  {
    if n == 0 then 0 else RowWorth(b, piece, r, n - 1, dr, dc) + WorthAt(b, piece, r, n - 1, dr, dc)
  }

  /** ... of m rows from r0 on. */
  function RowsWorth(b: Board, piece: char, r0: int, m: nat, n: nat, dr: int, dc: int): (s: int)
    ensures -80 * (m * n) <= s <= 1000 * (m * n)
  {
    if m == 0 then 0 else RowsWorth(b, piece, r0, m - 1, n, dr, dc) + RowWorth(b, piece, r0 + m - 1, n, dr, dc)
  }

  /** The vertical windows of column c that start in the first n rows. */
  function ColWorth(b: Board, piece: char, c: int, n: nat): (s: int)
    ensures -80 * n <= s <= 1000 * n
  {
    if n == 0 then 0 else ColWorth(b, piece, c, n - 1) + WorthAt(b, piece, n - 1, c, 1, 0)
  }

  function ColsWorth(b: Board, piece: char, m: nat, n: nat): (s: int)
    ensures -80 * (m * n) <= s <= 1000 * (m * n)
  {
    if m == 0 then 0 else ColsWorth(b, piece, m - 1, n) + ColWorth(b, piece, m - 1, n)
  }

  function Center(b: Board, piece: char, n: nat): (k: nat)
    requires n <= ROWS
    ensures k <= n
  {
    if n == 0 then 0 else Center(b, piece, n - 1) + if Cell(b, n - 1, COLS / 2) == piece then 1 else 0
  }

  function Evaluate(b: Board, piece: char): (s: int)
    ensures -WIN < 2 * s < WIN
  {
    6 * Center(b, piece, ROWS) + RowsWorth(b, piece, 0, ROWS, COLS - 3, 0, 1) + ColsWorth(b, piece, COLS, ROWS - 3)
    + RowsWorth(b, piece, 0, ROWS - 3, COLS - 3, 1, 1) + RowsWorth(b, piece, 3, ROWS - 3, COLS - 3, -1, 1)
  }

  // ---------------------------------------------------------------- plain minimax

  function Better(max: bool, a: int, b: int): (x: int) {
    if max then (if b > a then b else a) else (if b < a then b else a)
  }

  function Piece(max: bool): char {
    if max then 'O' else 'X'
  }

  /** The value of a position searched to the given depth, without any pruning. */
  ghost function Minimax(b: Board, depth: nat, max: bool): (v: int)
    decreases depth, COLS + 1
  {
    if Wins(b, 'O') then WIN
    else if Wins(b, 'X') then -WIN
    else if depth == 0 || Full(b) then Evaluate(b, 'O') - Evaluate(b, 'X')
    else BestOf(b, depth, max, COLS)
  }

  /** The best value over the moves in the first n columns. */
  ghost function BestOf(b: Board, depth: nat, max: bool, n: nat): (v: int)
    requires depth > 0 && n <= COLS
    decreases depth, n
  {
    if n == 0 then (if max then -INFINITY else INFINITY)
    else if IsOpen(b, n - 1) then Better(max, BestOf(b, depth, max, n - 1), MoveValue(b, depth, max, n - 1))
    else BestOf(b, depth, max, n - 1)
  }

  /** The value of playing column c. */
  ghost function MoveValue(b: Board, depth: nat, max: bool, c: nat): (v: int)
    requires depth > 0 && IsOpen(b, c)
    decreases depth, 0
  {
    Minimax(Play(b, c, Piece(max)), depth - 1, !max)
  }

  lemma {:induction false} BestIsBest(b: Board, depth: nat, max: bool, n: nat, c: nat)
    requires depth > 0 && c < n <= COLS && IsOpen(b, c)
    ensures Better(max, BestOf(b, depth, max, n), MoveValue(b, depth, max, c)) == BestOf(b, depth, max, n)
  {
    if c < n - 1 {
      BestIsBest(b, depth, max, n - 1, c);
    }
  }

  lemma {:induction false} BestGrows(b: Board, depth: nat, max: bool, m: nat, n: nat)
    requires depth > 0 && m <= n <= COLS
    ensures Better(max, BestOf(b, depth, max, n), BestOf(b, depth, max, m)) == BestOf(b, depth, max, n)
  {
    if m < n {
      BestGrows(b, depth, max, m, n - 1);
    }
  }

  /** Every position's value is within WIN of zero. */
  lemma {:induction false} ValueBound(b: Board, depth: nat, max: bool)
    ensures -WIN <= Minimax(b, depth, max) <= WIN
    decreases depth, COLS + 1
  {
    if !Wins(b, 'O') && !Wins(b, 'X') && depth > 0 && !Full(b) {
      var c :| 0 <= c < COLS && IsOpen(b, c);
      BestBound(b, depth, max, COLS, c);
    }
  }

  lemma {:induction false} BestBound(b: Board, depth: nat, max: bool, n: nat, c: nat)
    requires depth > 0 && c < COLS && n <= COLS && IsOpen(b, c)
    ensures c < n ==> -WIN <= BestOf(b, depth, max, n) <= WIN
    ensures BestOf(b, depth, max, n) == (if max then -INFINITY else INFINITY) || -WIN <= BestOf(b, depth, max, n) <= WIN
    decreases depth, n
  {
    if n > 0 {
      BestBound(b, depth, max, n - 1, c);
      if IsOpen(b, n - 1) {
        ValueBound(Play(b, n - 1, Piece(max)), depth - 1, !max);
      }
    }
  }

  // ---------------------------------------------------------------- alpha-beta

  /** v is the value m when it lies inside the window, and a bound on it otherwise. */
  predicate Approximates(alpha: int, beta: int, v: int, m: int) {
    && (v <= alpha ==> m <= v)
    && (v >= beta ==> m >= v)
    && (alpha < v < beta ==> v == m)
  }

  /** value stands for the best of the moves tried so far by the maximizing player. */
  predicate Tracks(alpha: int, value: int, best: int) {
    if value <= alpha then best <= value else best == value
  }

  /** The search has not been cut off: alpha has only been raised to value, and value is
      below beta, or still the one it started from. */
  predicate Narrowing(alpha0: int, alpha: int, beta: int, value: int, best: int) {
    && alpha0 <= alpha && (alpha == alpha0 || alpha <= value) && Tracks(alpha0, value, best)
    && (value < beta || value == best == -INFINITY)
  }

  /** One more move: its value m is known as s, from a search with the narrowed window.
      Either the search goes on, or the value is already at least beta. */
  lemma Narrowed(alpha0: int, alpha: int, beta: int, value: int, best: int, s: int, m: int)
    requires alpha < beta && Narrowing(alpha0, alpha, beta, value, best) && Approximates(alpha, beta, s, m) && -WIN <= m
    ensures var v, best' := Better(true, value, s), Better(true, best, m);
            var alpha' := Better(true, alpha, v);
            if alpha' < beta then Narrowing(alpha0, alpha', beta, v, best') else beta <= v <= best'
  {
  }

  ghost predicate Terminal(b: Board, depth: nat) {
    Wins(b, 'O') || Wins(b, 'X') || depth == 0 || Full(b)
  }

  /** The leftmost of the moves with the best value. */
  ghost predicate LeftmostBest(b: Board, depth: nat, n: nat, col: int, value: int)
    requires depth > 0
  {
    && 0 <= col < n && IsOpen(b, col) && MoveValue(b, depth, true, col) == value
    && forall c :: 0 <= c < col && IsOpen(b, c) ==> MoveValue(b, depth, true, c) < value
  }

  /** A move that beats everything so far becomes the leftmost best one. */
  lemma NewLeader(b: Board, depth: nat, c: nat, alpha0: int, alpha: int, beta: int, value: int, score: int)
    requires depth > 0 && c < COLS && IsOpen(b, c) && alpha < beta
    requires Approximates(alpha, beta, score, MoveValue(b, depth, true, c))
             && Narrowing(alpha0, alpha, beta, value, BestOf(b, depth, true, c))
    ensures value < score && alpha0 < score < beta ==> LeftmostBest(b, depth, c + 1, c, score)
  {
    forall x | 0 <= x < c && IsOpen(b, x)
      ensures value < score && alpha0 < score ==> MoveValue(b, depth, true, x) < score
    {
      BestIsBest(b, depth, true, c, x);
    }
  }

  lemma Steps(r: int, c: int, dr: int, dc: int, k: nat)
    requires OnBoard(r, c, dr, dc) && k < 4
    ensures 0 <= r + k * dr < ROWS && 0 <= c + k * dc < COLS
  {
  }

  class Game {
    const board: array<char>
    var bestCol: int

    constructor ()
      ensures fresh(board) && board.Length == ROWS * COLS && forall i :: 0 <= i < board.Length ==> board[i] == '.'
    {
      board := new char[ROWS * COLS](_ => '.');
      bestCol := 0;
    }

    method GetNextOpenRow(col: nat) returns (r: int)
      requires board.Length == ROWS * COLS && col < COLS
      ensures r == OpenRow(board[..], col)
    {
      r := ROWS - 1;
      while r >= 0
        invariant -1 <= r < ROWS && OpenFrom(board[..], col, r) == OpenRow(board[..], col)
      {
        if board[Index(r, col)] == '.' {
          return;
        }
        r := r - 1;
      }
    }

    /** One of check_win's four scans: rows r0..r1, the first n columns, one direction. */
    method AnyLine(p: char, r0: nat, r1: nat, n: nat, dr: int, dc: int) returns (found: bool)
      requires board.Length == ROWS * COLS && n <= COLS
      requires forall r, c :: r0 <= r < r1 && 0 <= c < n ==> OnBoard(r, c, dr, dc)
      ensures found <==> exists r, c :: r0 <= r < r1 && 0 <= c < n && Line(board[..], p, r, c, dr, dc)
    {
      var r := r0;
      while r < r1
        invariant forall x, y :: r0 <= x < r && x < r1 && 0 <= y < n ==> !Line(board[..], p, x, y, dr, dc)
      {
        var c := 0;
        while c < n
          invariant forall y :: 0 <= y < c && y < n ==> !Line(board[..], p, r, y, dr, dc)
        {
          assert OnBoard(r, c, dr, dc);
          var here := FourEqual(p, r, c, dr, dc);
          if here {
            return true;
          }
          c := c + 1;
        }
        r := r + 1;
      }
      found := false;
    }

    method FourEqual(p: char, r: nat, c: nat, dr: int, dc: int) returns (same: bool)
      requires board.Length == ROWS * COLS && OnBoard(r, c, dr, dc)
      ensures same <==> Line(board[..], p, r, c, dr, dc)
    {
      same := && board[Index(r, c)] == p && board[Index(r + dr, c + dc)] == p
              && board[Index(r + 2 * dr, c + 2 * dc)] == p && board[Index(r + 3 * dr, c + 3 * dc)] == p;
      ghost var b: Board := board[..];
      assert WindowCell(b, r, c, dr, dc, 0) == board[Index(r, c)]
             && WindowCell(b, r, c, dr, dc, 1) == board[Index(r + dr, c + dc)];
      assert WindowCell(b, r, c, dr, dc, 2) == board[Index(r + 2 * dr, c + 2 * dc)];
      assert WindowCell(b, r, c, dr, dc, 3) == board[Index(r + 3 * dr, c + 3 * dc)];
    }

    method CheckWin(p: char) returns (won: bool)
      requires board.Length == ROWS * COLS
      ensures won <==> Wins(board[..], p)
    {
      won := AnyLine(p, 0, ROWS, COLS - 3, 0, 1);
      if !won {
        won := AnyLine(p, 0, ROWS - 3, COLS, 1, 0);
      }
      if !won {
        won := AnyLine(p, 3, ROWS, COLS - 3, -1, 1);
      }
      if !won {
        won := AnyLine(p, 0, ROWS - 3, COLS - 3, 1, 1);
      }
    }

    method IsBoardFull() returns (full: bool)
      requires board.Length == ROWS * COLS
      ensures full <==> Full(board[..])
    {
      var c := 0;
      while c < COLS
        invariant 0 <= c <= COLS && forall x :: 0 <= x < c ==> !IsOpen(board[..], x)
      {
        var r := GetNextOpenRow(c);
        if r != -1 {
          assert IsOpen(board[..], c);
          return false;
        }
        c := c + 1;
      }
      full := true;
    }

    method ScoreWindow(window: seq<char>, piece: char) returns (score: int)
      requires |window| == 4 && piece in {'O', 'X'}
      ensures score == Worth(window, piece)
    {
      score := 0;
      var opp := if piece == 'O' then 'X' else 'O';
      var own, empty, theirs := 0, 0, 0;
      var i := 0;
      while i < 4
        invariant 0 <= i <= 4
        invariant own == Count(window[..i], piece) && empty == Count(window[..i], '.')
                  && theirs == Count(window[..i], opp)
      {
        assert window[..i + 1][..i] == window[..i];
        if window[i] == piece {
          own := own + 1;
        } else if window[i] == opp {
          theirs := theirs + 1;
        } else if window[i] == '.' {
          empty := empty + 1;
        }
        i := i + 1;
      }
      assert window[..4] == window;
      if own == 4 {
        score := score + 1000;
      } else if own == 3 && empty == 1 {
        score := score + 100;
      } else if own == 2 && empty == 2 {
        score := score + 10;
      }
      if theirs == 3 && empty == 1 {
        score := score - 80;
      }
    }

    /** Copies a window out of the board and scores it. */
    method ScoreAt(piece: char, r: nat, c: nat, dr: int, dc: int) returns (score: int)
      requires board.Length == ROWS * COLS && piece in {'O', 'X'} && OnBoard(r, c, dr, dc)
      ensures score == WorthAt(board[..], piece, r, c, dr, dc)
    {
      var window := [];
      var k := 0;
      while k < 4
        invariant 0 <= k <= 4 && window == Window(board[..], r, c, dr, dc)[..k]
      {
        Steps(r, c, dr, dc, k);
        assert WindowCell(board[..], r, c, dr, dc, k) == board[Index(r + k * dr, c + k * dc)];
        window := window + [board[Index(r + k * dr, c + k * dc)]];
        k := k + 1;
      }
      assert window == Window(board[..], r, c, dr, dc);
      score := ScoreWindow(window, piece);
    }

    /** One of evaluate_position's row-by-row passes. */
    method ScoreRows(piece: char, r0: nat, m: nat, n: nat, dr: int, dc: int) returns (score: int)
      requires board.Length == ROWS * COLS && piece in {'O', 'X'}
      requires forall r, c :: r0 <= r < r0 + m && 0 <= c < n ==> OnBoard(r, c, dr, dc)
      ensures score == RowsWorth(board[..], piece, r0, m, n, dr, dc)
    {
      hide RowWorth, WorthAt;
      score := 0;
      var i := 0;
      while i < m
        invariant 0 <= i <= m && score == RowsWorth(board[..], piece, r0, i, n, dr, dc)
      {
        score := ScoreRow(piece, r0 + i, n, dr, dc, score);
        i := i + 1;
      }
    }

    method ScoreRow(piece: char, r: nat, n: nat, dr: int, dc: int, score0: int) returns (score: int)
      requires board.Length == ROWS * COLS && piece in {'O', 'X'}
      requires forall c :: 0 <= c < n ==> OnBoard(r, c, dr, dc)
      ensures score == score0 + RowWorth(board[..], piece, r, n, dr, dc)
    {
      score := score0;
      var c := 0;
      while c < n
        invariant 0 <= c <= n && score == score0 + RowWorth(board[..], piece, r, c, dr, dc)
      {
        assert OnBoard(r, c, dr, dc);
        var s := ScoreAt(piece, r, c, dr, dc);
        score := score + s;
        c := c + 1;
      }
    }

    /** Its column-by-column pass. */
    method ScoreColumns(piece: char) returns (score: int)
      requires board.Length == ROWS * COLS && piece in {'O', 'X'}
      ensures score == ColsWorth(board[..], piece, COLS, ROWS - 3)
    {
      hide WorthAt;
      score := 0;
      var c := 0;
      while c < COLS
        invariant 0 <= c <= COLS && score == ColsWorth(board[..], piece, c, ROWS - 3)
      {
        var r := 0;
        while r < ROWS - 3
          invariant 0 <= r <= ROWS - 3
                    && score == ColsWorth(board[..], piece, c, ROWS - 3) + ColWorth(board[..], piece, c, r)
        {
          var s := ScoreAt(piece, r, c, 1, 0);
          score := score + s;
          r := r + 1;
        }
        c := c + 1;
      }
    }

    method EvaluatePosition(piece: char) returns (score: int)
      requires board.Length == ROWS * COLS && piece in {'O', 'X'}
      ensures score == Evaluate(board[..], piece)
    {
      var center := 0;
      var r := 0;
      while r < ROWS
        invariant 0 <= r <= ROWS && center == Center(board[..], piece, r)
      {
        if board[Index(r, COLS / 2)] == piece {
          center := center + 1;
        }
        r := r + 1;
      }
      var rows := ScoreRows(piece, 0, ROWS, COLS - 3, 0, 1);
      var cols := ScoreColumns(piece);
      var down := ScoreRows(piece, 0, ROWS - 3, COLS - 3, 1, 1);
      var up := ScoreRows(piece, 3, ROWS - 3, COLS - 3, -1, 1);
      score := center * 6 + rows + cols + down + up;
    }

    /** minimax: exact inside the window, a bound outside it; the board is as before.  For
        the maximizing player an exact result comes with the leftmost best column. */
    method Search(depth: nat, alpha: int, beta: int, max: bool) returns (value: int)
      requires board.Length == ROWS * COLS && alpha < beta
      modifies board, `bestCol
      ensures board[..] == old(board[..])
      ensures Approximates(alpha, beta, value, Minimax(old(board[..]), depth, max))
      ensures Terminal(old(board[..]), depth) ==> bestCol == old(bestCol)
      ensures max && !Terminal(old(board[..]), depth) && alpha < value < beta ==>
                LeftmostBest(old(board[..]), depth, COLS, bestCol, value)
      decreases depth, 2
    {
      var won := CheckWin('O');
      if won {
        return WIN;
      }
      won := CheckWin('X');
      if won {
        return -WIN;
      }
      var full := IsBoardFull();
      if depth == 0 || full {
        var mine := EvaluatePosition('O');
        var theirs := EvaluatePosition('X');
        return mine - theirs;
      }
      ValueBound(board[..], depth, max);
      if max {
        value := Maximize(depth, alpha, beta);
      } else {
        value := Minimize(depth, alpha, beta);
      }
    }

    /** make_move, minimax of the reply, undo_move. */
    method TryMove(c: nat, r: nat, depth: nat, alpha: int, beta: int, max: bool) returns (score: int)
      requires board.Length == ROWS * COLS && alpha < beta && depth > 0 && IsOpen(board[..], c)
               && r == OpenRow(board[..], c)
      modifies board, `bestCol
      ensures board[..] == old(board[..])
      ensures Approximates(alpha, beta, score, MoveValue(old(board[..]), depth, max, c))
      decreases depth, 0
    {
      ghost var b: Board := board[..];
      board[Index(r, c)] := Piece(max);
      assert board[..] == Play(b, c, Piece(max));
      score := Search(depth - 1, alpha, beta, !max);
      board[Index(r, c)] := '.';
      assert board[..] == b;
    }

    method Maximize(depth: nat, alpha0: int, beta: int) returns (value: int)
      requires board.Length == ROWS * COLS && alpha0 < beta && depth > 0
      modifies board, `bestCol
      ensures board[..] == old(board[..])
      ensures Approximates(alpha0, beta, value, BestOf(old(board[..]), depth, true, COLS))
      ensures alpha0 < value < beta && value != -INFINITY ==> LeftmostBest(old(board[..]), depth, COLS, bestCol, value)
      decreases depth, 1
    {
      hide Index, Cell, Center, Minimax;
      ghost var b: Board := board[..];
      var alpha := alpha0;
      value := -INFINITY;
      var localBest := -1;
      var c := 0;
      while c < COLS
        invariant 0 <= c <= COLS && board[..] == b && alpha < beta
        invariant Narrowing(alpha0, alpha, beta, value, BestOf(b, depth, true, c))
        invariant alpha0 < value && value != -INFINITY ==> LeftmostBest(b, depth, c, localBest, value)
      {
        ghost var best := BestOf(b, depth, true, c);
        var r := GetNextOpenRow(c);
        c := c + 1;
        if r != -1 {
          var score := TryMove(c - 1, r, depth, alpha, beta, true);
          ValueBound(Play(b, c - 1, 'O'), depth - 1, false);
          Narrowed(alpha0, alpha, beta, value, best, score, MoveValue(b, depth, true, c - 1));
          NewLeader(b, depth, c - 1, alpha0, alpha, beta, value, score);
          if score > value {
            value := score;
            localBest := c - 1;
          }
          if value > alpha {
            alpha := value;
          }
          if alpha >= beta {
            break;
          }
        }
      }
      BestGrows(b, depth, true, c, COLS);
      if localBest != -1 {
        bestCol := localBest;
      }
    }

    method Minimize(depth: nat, alpha: int, beta0: int) returns (value: int)
      requires board.Length == ROWS * COLS && alpha < beta0 && depth > 0
      modifies board, `bestCol
      ensures board[..] == old(board[..])
      ensures Approximates(alpha, beta0, value, BestOf(old(board[..]), depth, false, COLS))
      decreases depth, 1
    {
      ghost var b: Board := board[..];
      var beta := beta0;
      value := INFINITY;
      var c := 0;
      while c < COLS
        invariant 0 <= c <= COLS && board[..] == b && alpha < beta
        invariant Narrowing(-beta0, -beta, -alpha, -value, -BestOf(b, depth, false, c))
      {
        ghost var best := BestOf(b, depth, false, c);
        var r := GetNextOpenRow(c);
        c := c + 1;
        if r != -1 {
          var score := TryMove(c - 1, r, depth, alpha, beta, false);
          ValueBound(Play(b, c - 1, 'X'), depth - 1, true);
          Narrowed(-beta0, -beta, -alpha, -value, -best, -score, -MoveValue(b, depth, false, c - 1));
          if score < value {
            value := score;
          }
          if value < beta {
            beta := value;
          }
          if alpha >= beta {
            break;
          }
        }
      }
      BestGrows(b, depth, false, c, COLS);
    }

    /** get_ai_move: the leftmost column with the best value at depth 6, or 0 if the game is
        over. */
    method GetAiMove() returns (best: int)
      requires board.Length == ROWS * COLS
      modifies board, `bestCol
      ensures board[..] == old(board[..])
      ensures if Terminal(old(board[..]), 6) then best == 0
              else LeftmostBest(old(board[..]), 6, COLS, best, Minimax(old(board[..]), 6, true))
    {
      bestCol := 0;
      ghost var b: Board := board[..];
      var value := Search(6, -INFINITY, INFINITY, true);
      ValueBound(b, 6, true);
      best := bestCol;
    }
  }
}
