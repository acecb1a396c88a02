/**
 * The five regular expressions of the code generator, and a matcher with the semantics of
 * Python's `re.match` for the kind of pattern they are: a sequence of literals, optional
 * characters, greedy runs of one character class and alternations of literals. The match
 * is anchored at the start of the string and not at its end, and the matcher backtracks
 * into earlier choices, in the engine's order, whenever a later element fails.
 *
 * Three theorems tie the matcher to the patterns as a reader understands them: every match
 * splits a prefix of the input into one piece per element, each of the element's form
 * (`PiecesSound`); whenever any such split exists the matcher finds a match (`PiecesExist`),
 * so a match exists exactly when a fitting split does (`PiecesIff`); and a text built of such
 * pieces, each one the engine's first choice at that point, is split back into exactly those
 * pieces (`PiecesComplete`).
 */
module TacPatterns {
  import opened Ascii
  import opened Results

  // ---------------------------------------------------------------------------------------
  // Patterns and the matcher.
  // ---------------------------------------------------------------------------------------

  /** The character classes of the patterns: `\s`, `\w`, `[0-9]`, and `.` (anything but a line feed). */
  datatype Class = Space | Word | Digit | Line

  predicate Member(cls: Class, c: char)
  {
    match cls
    case Space => IsSpace(c)
    case Word => IsWordChar(c)
    case Digit => IsDigit(c)
    case Line => IsNotNewline(c)
  }

  /**
   * A pattern element: a literal; an optional character `c?`; a greedy run `cls*`, or `cls+`
   * when `plus`; an alternation `(o1|o2|...)` of literals. A run or an alternation may be a
   * capturing group.
   */
  datatype Atom =
    | Lit(text: string)
    | Maybe(c: char)
    | Run(cls: Class, plus: bool, group: bool)
    | Alt(options: seq<string>, group: bool)

  /** The texts an element matches on its own. */
  predicate Fits(a: Atom, piece: string)
  {
    match a
    case Lit(t) => piece == t
    case Maybe(c) => piece == [] || piece == [c]
    case Run(cls, plus, _) => (plus ==> piece != []) && forall k :: 0 <= k < |piece| ==> Member(cls, piece[k])
    case Alt(options, _) => piece in options
  }

  /** The length of the longest prefix of `s` in the class `cls`. */
  function Span(s: string, cls: Class): (n: nat)
    ensures n <= |s|
  {
    if s != [] && Member(cls, s[0]) then 1 + Span(s[1..], cls) else 0
  }

  function Then(piece: string, rest: Option<seq<string>>): Option<seq<string>>
  {
    match rest
    case None => None
    case Some(ps) => Some([piece] + ps)
  }

  /**
   * `re.match(p, s)`: the text each element of `p` matched, found depth first in the order
   * the engine tries the choices (an optional character present before absent, a run
   * longest first, alternatives left to right), or None if no choice lets the whole
   * pattern match.
   */
  function Pieces(p: seq<Atom>, s: string): Option<seq<string>>
    decreases |p|, 1, 0
  {
    if p == [] then Some([])
    else
      match p[0]
      case Lit(t) => if StartsWith(s, t) then Then(t, Pieces(p[1..], s[|t|..])) else None
      case Maybe(c) =>
        var present := if s != [] && s[0] == c then Then([c], Pieces(p[1..], s[1..])) else None;
        if present.Some? then present else Then([], Pieces(p[1..], s))
      case Run(cls, _, _) => RunPieces(p, s, Span(s, cls))
      case Alt(_, _) => AltPieces(p, s, 0)
  }

  /** The run at the front of `p` taking `n` characters, or fewer if the rest fails after it. */
  function RunPieces(p: seq<Atom>, s: string, n: nat): Option<seq<string>>
    requires p != [] && p[0].Run? && n <= |s|
    decreases |p|, 0, n
  {
    var least := if p[0].plus then 1 else 0;
    if n < least then None
    else
      match Pieces(p[1..], s[n..])
      case Some(ps) => Some([s[..n]] + ps)
      case None => if n > least then RunPieces(p, s, n - 1) else None
  }

  /** The alternation at the front of `p`, trying its alternatives from the `i`-th on. */
  function AltPieces(p: seq<Atom>, s: string, i: nat): Option<seq<string>>
    requires p != [] && p[0].Alt? && i <= |p[0].options|
    decreases |p|, 0, |p[0].options| - i
  {
    if i == |p[0].options| then None
    else
      var o := p[0].options[i];
      var tail := if StartsWith(s, o) then Pieces(p[1..], s[|o|..]) else None;
      if tail.Some? then Then(o, tail) else AltPieces(p, s, i + 1)
  }

  function Concat(ps: seq<string>): string
  {
    if ps == [] then "" else ps[0] + Concat(ps[1..])
  }

  /** One piece per element, each of the element's form. */
  predicate AllFit(p: seq<Atom>, ps: seq<string>)
  {
    |ps| == |p| && forall i :: 0 <= i < |p| ==> Fits(p[i], ps[i])
  }

  // ---------------------------------------------------------------------------------------
  // Soundness: a match is a split of a prefix of the input.
  // ---------------------------------------------------------------------------------------

  /** Whatever the matcher returns splits a prefix of `s` into pieces, one per element, each of the element's form. */
  lemma {:induction false} PiecesSound(p: seq<Atom>, s: string)
    requires Pieces(p, s).Some?
    ensures AllFit(p, Pieces(p, s).value) && StartsWith(s, Concat(Pieces(p, s).value))
    decreases |p|, 1, 0
  {
    if p != [] {
      match p[0]
      case Lit(t) => {
        PiecesSound(p[1..], s[|t|..]);
        TailFits(p, Pieces(p, s).value);
        Prefix(s, t, Concat(Pieces(p[1..], s[|t|..]).value));
      }
      case Maybe(c) => {
        var ps := Pieces(p, s).value;
        if s != [] && s[0] == c && Pieces(p[1..], s[1..]).Some? {
          PiecesSound(p[1..], s[1..]);
          TailFits(p, ps);
          Prefix(s, [c], Concat(ps[1..]));
        } else {
          PiecesSound(p[1..], s);
          TailFits(p, ps);
          assert Concat(ps) == Concat(ps[1..]);
        }
      }
      case Run(cls, _, _) => RunSound(p, s, Span(s, cls));
      case Alt(_, _) => AltSound(p, s, 0);
    }
  }

  lemma {:induction false} RunSound(p: seq<Atom>, s: string, n: nat)
    requires p != [] && p[0].Run? && n <= Span(s, p[0].cls)
    requires RunPieces(p, s, n).Some?
    ensures AllFit(p, RunPieces(p, s, n).value) && StartsWith(s, Concat(RunPieces(p, s, n).value))
    decreases |p|, 0, n
  {
    if Pieces(p[1..], s[n..]).Some? {
      PiecesSound(p[1..], s[n..]);
      SpanRun(s, p[0].cls, n);
      TailFits(p, RunPieces(p, s, n).value);
      Prefix(s, s[..n], Concat(Pieces(p[1..], s[n..]).value));
    } else {
      RunSound(p, s, n - 1);
    }
  }

  lemma {:induction false} AltSound(p: seq<Atom>, s: string, i: nat)
    requires p != [] && p[0].Alt? && i <= |p[0].options|
    requires AltPieces(p, s, i).Some?
    ensures AllFit(p, AltPieces(p, s, i).value) && StartsWith(s, Concat(AltPieces(p, s, i).value))
    decreases |p|, 0, |p[0].options| - i
  {
    var o := p[0].options[i];
    if StartsWith(s, o) && Pieces(p[1..], s[|o|..]).Some? {
      PiecesSound(p[1..], s[|o|..]);
      TailFits(p, AltPieces(p, s, i).value);
      Prefix(s, o, Concat(Pieces(p[1..], s[|o|..]).value));
    } else {
      AltSound(p, s, i + 1);
    }
  }

  /** A character of one piece occurs in any text the pieces are a prefix of. */
  lemma {:induction false} PieceIn(s: string, ps: seq<string>, k: nat, c: char)
    requires k < |ps| && c in ps[k] && StartsWith(s, Concat(ps))
    ensures c in s
    decreases k
  {
    var j :| 0 <= j < |ps[k]| && ps[k][j] == c;
    if k == 0 {
      assert s[j] == Concat(ps)[j] == c;
    } else {
      assert Concat(ps) == ps[0] + Concat(ps[1..]);
      var t := s[|ps[0]|..];
      var c1 := Concat(ps[1..]);
      assert s[..|ps[0]| + |c1|] == ps[0] + c1;
      assert t[..|c1|] == s[..|ps[0]| + |c1|][|ps[0]|..];
      assert StartsWith(t, c1);
      assert ps[1..][k - 1] == ps[k];
      PieceIn(t, ps[1..], k - 1, c);
      var i :| 0 <= i < |t| && t[i] == c;
      assert s[|ps[0]| + i] == c;
    }
  }

  /** Every character within the span is in the class. */
  lemma {:induction false} SpanRun(s: string, cls: Class, n: nat)
    requires n <= Span(s, cls)
    ensures forall k :: 0 <= k < n ==> Member(cls, s[k])
  {
    if n > 0 {
      SpanRun(s[1..], cls, n - 1);
      assert forall k :: 1 <= k < n ==> s[k] == s[1..][k - 1];
    }
  }

  lemma TailFits(p: seq<Atom>, ps: seq<string>)
    requires p != [] && |ps| == |p| && Fits(p[0], ps[0]) && AllFit(p[1..], ps[1..])
    ensures AllFit(p, ps)
  {
    forall i | 1 <= i < |p|
      ensures Fits(p[i], ps[i])
    {
      assert p[i] == p[1..][i - 1] && ps[i] == ps[1..][i - 1];
    }
  }

  lemma Prefix(s: string, x: string, y: string)
    requires StartsWith(s, x) && StartsWith(s[|x|..], y)
    ensures StartsWith(s, x + y)
  {
    assert s[..|x| + |y|] == s[..|x|] + s[|x|..][..|y|];
  }

  // ---------------------------------------------------------------------------------------
  // Completeness: a text built of first choices is read back as its pieces.
  // ---------------------------------------------------------------------------------------

  /** The first of `options`, left to right, that `t` starts with. */
  function FirstOption(options: seq<string>, t: string): (r: Option<string>)
    ensures r.Some? ==> r.value in options && StartsWith(t, r.value)
  {
    if options == [] then None
    else if StartsWith(t, options[0]) then Some(options[0])
    else FirstOption(options[1..], t)
  }

  /**
   * `piece` is the engine's first choice for the element `a` when `next` follows it: a run
   * ends where its class does, an absent optional character is not there, and an
   * alternative is the first one the text starts with.
   */
  predicate FirstChoice(a: Atom, piece: string, next: string)
  {
    match a
    case Lit(_) => true
    case Maybe(c) => piece == [] ==> next == [] || next[0] != c
    case Run(cls, _, _) => next == [] || !Member(cls, next[0])
    case Alt(options, _) => FirstOption(options, piece + next) == Some(piece)
  }

  /** Every piece is its element's first choice, given all that follows it. */
  predicate Chosen(p: seq<Atom>, ps: seq<string>, rest: string)
    decreases |p|
  {
    |ps| == |p| && (p != [] ==> FirstChoice(p[0], ps[0], Concat(ps[1..]) + rest) && Chosen(p[1..], ps[1..], rest))
  }

  /** Pieces that are each their element's first choice are what the pattern reads from their concatenation. */
  lemma {:induction false} PiecesComplete(p: seq<Atom>, ps: seq<string>, rest: string)
    requires AllFit(p, ps) && Chosen(p, ps, rest)
    ensures Pieces(p, Concat(ps) + rest) == Some(ps)
    decreases |p|
  {
    if p == [] {
      assert Concat(ps) + rest == rest;
    } else {
      AllFitTail(p, ps);
      assert Concat(ps) + rest == ps[0] + (Concat(ps[1..]) + rest);
      PiecesComplete(p[1..], ps[1..], rest);
      PiecesStep(p, ps[0], Concat(ps[1..]) + rest, ps[1..]);
      assert ps == [ps[0]] + ps[1..];
    }
  }

  lemma AllFitTail(p: seq<Atom>, ps: seq<string>)
    requires p != [] && AllFit(p, ps)
    ensures Fits(p[0], ps[0]) && AllFit(p[1..], ps[1..])
  {
    assert forall i :: 0 <= i < |p| - 1 ==> p[1..][i] == p[i + 1] && ps[1..][i] == ps[i + 1];
  }

  /** One element at a time: an element's first choice, then whatever the rest of the pattern reads after it. */
  lemma PiecesStep(p: seq<Atom>, piece: string, next: string, ps: seq<string>)
    requires p != [] && Fits(p[0], piece) && FirstChoice(p[0], piece, next)
    requires Pieces(p[1..], next) == Some(ps)
    ensures Pieces(p, piece + next) == Some([piece] + ps)
  {
    var s := piece + next;
    Halves(piece, next);
    match p[0]
    case Lit(_) => {}
    case Maybe(_) => {
      if piece == [] {
        assert s == next;
      }
    }
    case Run(cls, _, _) => {
      SpanOf(piece, next, cls);
    }
    case Alt(_, _) => {
      AltComplete(p, s, 0, piece);
    }
  }

  /** `PiecesStep` for a pattern written as its first element and the rest. */
  lemma Step(a: Atom, q: seq<Atom>, piece: string, next: string, ps: seq<string>)
    requires Fits(a, piece) && FirstChoice(a, piece, next)
    requires Pieces(q, next) == Some(ps)
    ensures Pieces([a] + q, piece + next) == Some([piece] + ps)
  {
    assert ([a] + q)[1..] == q;
    PiecesStep([a] + q, piece, next, ps);
  }

  lemma Halves(x: string, y: string)
    ensures (x + y)[..|x|] == x && (x + y)[|x|..] == y
  {
  }

  /** A run over `x + y` takes exactly `x` when `x` is in the class throughout and `y` does not start in it. */
  lemma {:induction false} SpanOf(x: string, y: string, cls: Class)
    requires forall k :: 0 <= k < |x| ==> Member(cls, x[k])
    requires y == [] || !Member(cls, y[0])
    ensures Span(x + y, cls) == |x|
  {
    if x == [] {
      assert x + y == y;
    } else {
      assert (x + y)[1..] == x[1..] + y;
      SpanOf(x[1..], y, cls);
    }
  }

  /** Trying the alternatives from the `i`-th on reaches the first one `s` starts with, and keeps it when the rest matches after it. */
  lemma {:induction false} AltComplete(p: seq<Atom>, s: string, i: nat, o: string)
    requires p != [] && p[0].Alt? && i <= |p[0].options|
    requires FirstOption(p[0].options[i..], s) == Some(o)
    requires Pieces(p[1..], s[|o|..]).Some?
    ensures AltPieces(p, s, i) == Then(o, Pieces(p[1..], s[|o|..]))
    decreases |p[0].options| - i
  {
    var options := p[0].options;
    assert options[i..][0] == options[i] && options[i..][1..] == options[i + 1..];
    if !StartsWith(s, options[i]) {
      AltComplete(p, s, i + 1, o);
    }
  }

  /** Elements that may match the empty text. */
  predicate Optional(a: Atom)
  {
    a.Maybe? || (a.Run? && !a.plus)
  }

  /** A pattern of optional elements matches every text. */
  lemma {:induction false} OptionalMatches(p: seq<Atom>, s: string)
    requires forall i :: 0 <= i < |p| ==> Optional(p[i])
    ensures Pieces(p, s).Some?
    decreases |p|
  {
    if p != [] {
      assert forall i :: 0 <= i < |p| - 1 ==> p[1..][i] == p[i + 1];
      if p[0].Maybe? {
        OptionalMatches(p[1..], s);
      } else {
        OptionalMatches(p[1..], s[Span(s, p[0].cls)..]);
      }
    }
  }

  // ---------------------------------------------------------------------------------------
  // Existence: the matcher succeeds exactly when some prefix splits into fitting pieces.
  // ---------------------------------------------------------------------------------------

  /** Some prefix of `s` splits into one piece per element of `p`, each of its element's form. */
  ghost predicate Splits(p: seq<Atom>, s: string)
  {
    exists ps :: AllFit(p, ps) && StartsWith(s, Concat(ps))
  }

  /** The matcher finds a match whenever any split of a prefix fits, whichever split that is. */
  lemma {:induction false} PiecesExist(p: seq<Atom>, ps: seq<string>, s: string)
    requires AllFit(p, ps) && StartsWith(s, Concat(ps))
    ensures Pieces(p, s).Some?
    decreases |p|
  {
    if p != [] {
      AllFitTail(p, ps);
      var x := ps[0];
      var t := s[|x|..];
      assert Concat(ps) == x + Concat(ps[1..]);
      PrefixParts(s, x, Concat(ps[1..]));
      PiecesExist(p[1..], ps[1..], t);
      match p[0]
      case Lit(_) => {}
      case Maybe(c) => {
        if x == [] {
          assert t == s;
        } else {
          assert s[0] == x[0];
        }
      }
      case Run(cls, _, _) => {
        assert forall k :: 0 <= k < |x| ==> s[k] == x[k];
        SpanAtLeast(s, cls, |x|);
        RunReaches(p, s, Span(s, cls), |x|);
      }
      case Alt(options, _) => {
        var k :| 0 <= k < |options| && options[k] == x;
        AltReaches(p, s, 0, k);
      }
    }
  }

  /** The matcher succeeds on `s` if and only if some prefix of `s` splits into fitting pieces. */
  lemma PiecesIff(p: seq<Atom>, s: string)
    ensures Pieces(p, s).Some? <==> Splits(p, s)
  {
    if Pieces(p, s).Some? {
      PiecesSound(p, s);
    } else if Splits(p, s) {
      var ps :| AllFit(p, ps) && StartsWith(s, Concat(ps));
      PiecesExist(p, ps, s);
    }
  }

  /** The converse of `Prefix`. */
  lemma PrefixParts(s: string, x: string, y: string)
    requires StartsWith(s, x + y)
    ensures StartsWith(s, x) && StartsWith(s[|x|..], y)
  {
    assert s[..|x|] == (x + y)[..|x|];
    assert s[|x|..][..|y|] == s[..|x| + |y|][|x|..];
  }

  /** A run takes at least every prefix of the class. */
  lemma {:induction false} SpanAtLeast(s: string, cls: Class, m: nat)
    requires m <= |s| && forall k :: 0 <= k < m ==> Member(cls, s[k])
    ensures m <= Span(s, cls)
    decreases m
  {
    if m > 0 {
      assert forall k :: 0 <= k < m - 1 ==> s[1..][k] == s[k + 1];
      SpanAtLeast(s[1..], cls, m - 1);
    }
  }

  /** Giving back characters from `n`, the run reaches any shorter end `m` after which the rest matches. */
  lemma {:induction false} RunReaches(p: seq<Atom>, s: string, n: nat, m: nat)
    requires p != [] && p[0].Run? && m <= n <= |s| && (p[0].plus ==> 1 <= m)
    requires Pieces(p[1..], s[m..]).Some?
    ensures RunPieces(p, s, n).Some?
    decreases n - m
  {
    if n > m && Pieces(p[1..], s[n..]).None? {
      RunReaches(p, s, n - 1, m);
    }
  }

  /** Trying the alternatives from the `i`-th on reaches any later one after which the rest matches. */
  lemma {:induction false} AltReaches(p: seq<Atom>, s: string, i: nat, k: nat)
    requires p != [] && p[0].Alt? && i <= k < |p[0].options|
    requires StartsWith(s, p[0].options[k]) && Pieces(p[1..], s[|p[0].options[k]|..]).Some?
    ensures AltPieces(p, s, i).Some?
    decreases k - i
  {
    if i < k {
      AltReaches(p, s, i + 1, k);
    }
  }

  /** The text `[c]`, or nothing. */
  function Opt(present: bool, c: char): string
  {
    if present then [c] else []
  }

  // ---------------------------------------------------------------------------------------
  // Statement numbers: `\(?([0-9]+)\)?\s*(.*)`.
  // ---------------------------------------------------------------------------------------

  /** `\s*(.*)`. */
  const StatementPattern: seq<Atom> := [Run(Space, false, false), Run(Line, false, true)]

  const MarkerPattern: seq<Atom> := [Maybe('('), Run(Digit, true, true), Maybe(')')] + StatementPattern

  /** The statement number and the text after it, up to the first line feed. */
  function MatchMarker(line: string): (r: Option<(string, string)>)
    ensures r.Some? <==> (0 < |line| && IsDigit(line[0])) || (1 < |line| && line[0] == '(' && IsDigit(line[1]))
    ensures r.Some? ==> IsDigits(r.value.0) && '\n' !in r.value.1
  {
    MarkerFound(line);
    match Pieces(MarkerPattern, line)
    case None => None
    case Some(ps) =>
      PiecesSound(MarkerPattern, line);
      assert Fits(MarkerPattern[1], ps[1]) && Fits(MarkerPattern[4], ps[4]);
      Some((ps[1], ps[4]))
  }

  /** A line matches the marker pattern exactly when it starts with a digit, or with `(` and a digit. */
  lemma MarkerFound(line: string)
    ensures Pieces(MarkerPattern, line).Some? <==> (0 < |line| && IsDigit(line[0])) || (1 < |line| && line[0] == '(' && IsDigit(line[1]))
  {
    var p := MarkerPattern;
    var tail := p[2..];
    assert forall i :: 0 <= i < |tail| ==> Optional(tail[i]);
    assert p[1..][1..] == tail;
    if 0 < |line| && IsDigit(line[0]) {
      OptionalMatches(tail, line[Span(line, Digit)..]);
      RunMatches(p[1..], line);
    } else if 1 < |line| && line[0] == '(' && IsDigit(line[1]) {
      OptionalMatches(tail, line[1..][Span(line[1..], Digit)..]);
      RunMatches(p[1..], line[1..]);
    } else {
      RunFails(p[1..], line);
      if line != [] && line[0] == '(' {
        RunFails(p[1..], line[1..]);
      }
    }
  }

  /** A run at the front matches when the rest matches after all it can take. */
  lemma RunMatches(p: seq<Atom>, s: string)
    requires p != [] && p[0].Run? && 0 < Span(s, p[0].cls)
    requires Pieces(p[1..], s[Span(s, p[0].cls)..]).Some?
    ensures Pieces(p, s).Some?
  {
  }

  /** A `cls+` run at the front fails when the text does not start in the class. */
  lemma RunFails(p: seq<Atom>, s: string)
    requires p != [] && p[0].Run? && p[0].plus && (s == [] || !Member(p[0].cls, s[0]))
    ensures Pieces(p, s).None?
  {
  }

  /**
   * A numbered line reads back as its number and statement: an optional `(`, the number, an
   * optional `)`, whitespace, a one-line statement, and a rest that starts the next line.
   * Nothing at a boundary may continue the element before it: a bare number is not followed
   * by a digit or `)`, and the statement does not start with whitespace.
   */
  lemma MarkerRoundTrip(open: bool, n: string, close: bool, sp: string, stmt: string, rest: string)
    requires IsDigits(n) && AllSpace(sp) && '\n' !in stmt && (rest == [] || rest[0] == '\n')
    requires stmt == [] || !IsSpace(stmt[0])
    requires stmt == [] ==> rest == []
    requires !close ==> sp + (stmt + rest) == [] || (!IsDigit((sp + (stmt + rest))[0]) && (sp + (stmt + rest))[0] != ')')
    ensures MatchMarker(Opt(open, '(') + (n + (Opt(close, ')') + (sp + (stmt + rest))))) == Some((n, stmt))
  {
    var ps := MarkerPieces(open, n, close, sp, stmt, rest);
    MatchMarkerPieces(Opt(open, '(') + (n + (Opt(close, ')') + (sp + (stmt + rest)))), ps);
  }

  /** What `MatchMarker` reads off a split of the marker pattern. */
  lemma MatchMarkerPieces(line: string, ps: seq<string>)
    requires Pieces(MarkerPattern, line) == Some(ps)
    ensures |ps| == 5 && MatchMarker(line) == Some((ps[1], ps[4]))
  {
    PiecesSound(MarkerPattern, line);
  }

  /** The split behind `MarkerRoundTrip`. */
  lemma MarkerPieces(open: bool, n: string, close: bool, sp: string, stmt: string, rest: string) returns (ps: seq<string>)
    requires IsDigits(n) && AllSpace(sp) && '\n' !in stmt && (rest == [] || rest[0] == '\n')
    requires stmt == [] || !IsSpace(stmt[0])
    requires stmt == [] ==> rest == []
    requires !close ==> sp + (stmt + rest) == [] || (!IsDigit((sp + (stmt + rest))[0]) && (sp + (stmt + rest))[0] != ')')
    ensures Pieces(MarkerPattern, Opt(open, '(') + (n + (Opt(close, ')') + (sp + (stmt + rest))))) == Some(ps)
    ensures |ps| == 5 && ps[1] == n && ps[4] == stmt
  {
    var a0, a1, a2 := Maybe('('), Run(Digit, true, true), Maybe(')');
    var q2 := [a2] + StatementPattern;
    var q1 := [a1] + q2;
    assert MarkerPattern == [a0] + q1;
    var s2 := sp + (stmt + rest);
    var s1 := Opt(close, ')') + s2;
    var s0 := n + s1;
    var ps2 := CloseMarkerPieces(close, sp, stmt, rest);
    Step(a1, q2, n, s1, ps2);
    var ps1 := [n] + ps2;
    Step(a0, q1, Opt(open, '('), s0, ps1);
    ps := [Opt(open, '(')] + ps1;
  }

  /** The optional `)` and the statement after it. */
  lemma CloseMarkerPieces(close: bool, sp: string, stmt: string, rest: string) returns (ps: seq<string>)
    requires AllSpace(sp) && '\n' !in stmt && (rest == [] || rest[0] == '\n')
    requires stmt == [] || !IsSpace(stmt[0])
    requires stmt == [] ==> rest == []
    requires !close ==> sp + (stmt + rest) == [] || (!IsDigit((sp + (stmt + rest))[0]) && (sp + (stmt + rest))[0] != ')')
    ensures Pieces([Maybe(')')] + StatementPattern, Opt(close, ')') + (sp + (stmt + rest))) == Some(ps)
    ensures |ps| == 3 && ps[0] == Opt(close, ')') && ps[2] == stmt
    ensures close ==> (Opt(close, ')') + (sp + (stmt + rest)))[0] == ')'
    ensures !close ==> Opt(close, ')') + (sp + (stmt + rest)) == [] || !IsDigit((Opt(close, ')') + (sp + (stmt + rest)))[0])
  {
    var s2 := sp + (stmt + rest);
    var pt := StatementPieces(sp, stmt, rest);
    assert close ==> (Opt(close, ')') + s2)[0] == ')';
    Step(Maybe(')'), StatementPattern, Opt(close, ')'), s2, pt);
    ps := [Opt(close, ')')] + pt;
  }

  /** The split of the statement after its number. */
  lemma StatementPieces(sp: string, stmt: string, rest: string) returns (ps: seq<string>)
    requires AllSpace(sp) && '\n' !in stmt && (rest == [] || rest[0] == '\n')
    requires stmt == [] || !IsSpace(stmt[0])
    requires stmt == [] ==> rest == []
    ensures Pieces(StatementPattern, sp + (stmt + rest)) == Some(ps)
    ensures ps == [sp, stmt]
  {
    var a3, a4 := Run(Space, false, false), Run(Line, false, true);
    var q4 := [a4];
    assert StatementPattern == [a3] + q4;
    assert Pieces([], rest) == Some([]);
    assert q4 == [a4] + [];
    Step(a4, [], stmt, rest, []);
    var ps4 := [stmt] + [];
    Step(a3, q4, sp, stmt + rest, ps4);
    ps := [sp] + ps4;
  }

  // ---------------------------------------------------------------------------------------
  // Jumps: `goto\s*\(?([0-9]+)\)?`.
  // ---------------------------------------------------------------------------------------

  const GotoPattern: seq<Atom> :=
    [Lit("goto"), Run(Space, false, false), Maybe('('), Run(Digit, true, true), Maybe(')')]

  /** The target number of a jump. */
  function MatchGoto(s: string): (r: Option<string>)
    ensures r.Some? ==> IsDigits(r.value)
  {
    match Pieces(GotoPattern, s)
    case None => None
    case Some(ps) =>
      PiecesSound(GotoPattern, s);
      assert Fits(GotoPattern[3], ps[3]);
      Some(ps[3])
  }

  /**
   * A jump reads back as its target: `goto`, whitespace, an optional `(`, the number, an
   * optional `)`; what follows must not continue the number, or the `)` when there is none.
   */
  lemma GotoRoundTrip(sp: string, open: bool, t: string, close: bool, rest: string)
    requires AllSpace(sp) && IsDigits(t)
    requires !close ==> rest == [] || (!IsDigit(rest[0]) && rest[0] != ')')
    ensures MatchGoto("goto" + (sp + (Opt(open, '(') + (t + (Opt(close, ')') + rest))))) == Some(t)
  {
    var ps := GotoPieces(sp, open, t, close, rest);
  }

  /** The split the jump pattern finds in such a text. */
  lemma GotoPieces(sp: string, open: bool, t: string, close: bool, rest: string) returns (ps: seq<string>)
    requires AllSpace(sp) && IsDigits(t)
    requires !close ==> rest == [] || (!IsDigit(rest[0]) && rest[0] != ')')
    ensures Pieces(GotoPattern, "goto" + (sp + (Opt(open, '(') + (t + (Opt(close, ')') + rest))))) == Some(ps)
    ensures ps == ["goto", sp, Opt(open, '('), t, Opt(close, ')')]
  {
    var a0, a1, a2 := Lit("goto"), Run(Space, false, false), Maybe('(');
    var q3 := [Run(Digit, true, true), Maybe(')')];
    var q2 := [a2] + q3;
    var q1 := [a1] + q2;
    assert GotoPattern == [a0] + q1;
    var s3 := t + (Opt(close, ')') + rest);
    var s2 := Opt(open, '(') + s3;
    var s1 := sp + s2;
    var ps3 := TargetPieces(t, close, rest);
    Step(a2, q3, Opt(open, '('), s3, ps3);
    var ps2 := [Opt(open, '(')] + ps3;
    Step(a1, q2, sp, s2, ps2);
    var ps1 := [sp] + ps2;
    Step(a0, q1, "goto", s1, ps1);
    ps := ["goto"] + ps1;
  }

  /** The target number and the optional `)` after it. */
  lemma TargetPieces(t: string, close: bool, rest: string) returns (ps: seq<string>)
    requires IsDigits(t)
    requires !close ==> rest == [] || (!IsDigit(rest[0]) && rest[0] != ')')
    ensures Pieces([Run(Digit, true, true), Maybe(')')], t + (Opt(close, ')') + rest)) == Some(ps)
    ensures ps == [t, Opt(close, ')')] && (t + (Opt(close, ')') + rest))[0] == t[0]
  {
    var a3, a4 := Run(Digit, true, true), Maybe(')');
    var q4 := [a4];
    var s4 := Opt(close, ')') + rest;
    assert Pieces([], rest) == Some([]);
    assert q4 == [a4] + [];
    Step(a4, [], Opt(close, ')'), rest, []);
    var ps4 := [Opt(close, ')')] + [];
    assert close ==> s4[0] == ')';
    assert [a3, a4] == [a3] + q4;
    Step(a3, q4, t, s4, ps4);
    ps := [t] + ps4;
  }

  // ---------------------------------------------------------------------------------------
  // Array loads: `(\w+)\s*=\s*(\w+)\[(\w+)\]`.
  // ---------------------------------------------------------------------------------------

  /** `(\w+)\[(\w+)\]`, shared with array stores. */
  const ElementPattern: seq<Atom> := [Run(Word, true, true), Lit("["), Run(Word, true, true), Lit("]")]

  /** `=\s*(\w+)\[(\w+)\]`, the part of a load after its destination. */
  const LoadSourcePattern: seq<Atom> := [Lit("="), Run(Space, false, false)] + ElementPattern

  /** `(\w+)\s*=\s*(\w+)\[(\w+)\]`. */
  const LoadPattern: seq<Atom> := [Run(Word, true, true), Run(Space, false, false)] + LoadSourcePattern

  /** Destination, array and index of an array load. */
  function MatchLoad(s: string): (r: Option<(string, string, string)>)
    ensures r.Some? ==> IsWord(r.value.0) && IsWord(r.value.1) && IsWord(r.value.2) && '[' in s
  {
    match Pieces(LoadPattern, s)
    case None => None
    case Some(ps) =>
      PiecesSound(LoadPattern, s);
      assert Fits(LoadPattern[0], ps[0]) && Fits(LoadPattern[4], ps[4]) && Fits(LoadPattern[6], ps[6]);
      assert Fits(LoadPattern[5], ps[5]);
      PieceIn(s, ps, 5, '[');
      Some((ps[0], ps[4], ps[6]))
  }

  /** An array load `dst = arr[idx]`, with any whitespace around `=` and anything after it, reads back as its three names. */
  lemma LoadRoundTrip(dst: string, sp1: string, sp2: string, arr: string, idx: string, rest: string)
    requires IsWord(dst) && AllSpace(sp1) && AllSpace(sp2) && IsWord(arr) && IsWord(idx)
    ensures MatchLoad(dst + (sp1 + ("=" + (sp2 + (arr + ("[" + (idx + ("]" + rest)))))))) == Some((dst, arr, idx))
  {
    var ps := LoadPieces(dst, sp1, sp2, arr, idx, rest);
    assert ps[0] == dst && ps[4] == arr && ps[6] == idx;
  }

  /** The split the load pattern finds in such a text. */
  lemma LoadPieces(dst: string, sp1: string, sp2: string, arr: string, idx: string, rest: string) returns (ps: seq<string>)
    requires IsWord(dst) && AllSpace(sp1) && AllSpace(sp2) && IsWord(arr) && IsWord(idx)
    ensures Pieces(LoadPattern, dst + (sp1 + ("=" + (sp2 + (arr + ("[" + (idx + ("]" + rest)))))))) == Some(ps)
    ensures |ps| == 8 && ps[0] == dst && ps[4] == arr && ps[6] == idx
  {
    var a0, a1 := Run(Word, true, true), Run(Space, false, false);
    var q1 := [a1] + LoadSourcePattern;
    assert LoadPattern == [a0] + q1;
    var s1 := "=" + (sp2 + (arr + ("[" + (idx + ("]" + rest)))));
    var s0 := sp1 + s1;
    var pl := LoadSourcePieces(sp2, arr, idx, rest);
    Step(a1, LoadSourcePattern, sp1, s1, pl);
    var ps1 := [sp1] + pl;
    Step(a0, q1, dst, s0, ps1);
    ps := [dst] + ps1;
  }

  /** The split of the part after the destination: `=`, whitespace and the element. */
  lemma LoadSourcePieces(sp2: string, arr: string, idx: string, rest: string) returns (ps: seq<string>)
    requires AllSpace(sp2) && IsWord(arr) && IsWord(idx)
    ensures Pieces(LoadSourcePattern, "=" + (sp2 + (arr + ("[" + (idx + ("]" + rest)))))) == Some(ps)
    ensures ps == ["=", sp2, arr, "[", idx, "]"]
  {
    var a2, a3 := Lit("="), Run(Space, false, false);
    var q3 := [a3] + ElementPattern;
    assert LoadSourcePattern == [a2] + q3;
    var s3 := arr + ("[" + (idx + ("]" + rest)));
    var s2 := sp2 + s3;
    assert Pieces([], rest) == Some([]);
    assert ElementPattern + [] == ElementPattern;
    var pe := ElementPieces(arr, idx, [], rest, []);
    assert s3[0] == arr[0];
    Step(a3, ElementPattern, sp2, s3, pe);
    var ps3 := [sp2] + pe;
    Step(a2, q3, "=", s2, ps3);
    ps := ["="] + ps3;
  }

  /** The split of an array element `arr[idx]`, followed by whatever the rest of the pattern reads. */
  lemma ElementPieces(arr: string, idx: string, q: seq<Atom>, rest: string, pq: seq<string>) returns (ps: seq<string>)
    requires IsWord(arr) && IsWord(idx)
    requires Pieces(q, rest) == Some(pq)
    ensures Pieces(ElementPattern + q, arr + ("[" + (idx + ("]" + rest)))) == Some(ps)
    ensures ps == [arr, "[", idx, "]"] + pq
  {
    var a0, a1 := Run(Word, true, true), Lit("[");
    var q2 := [Run(Word, true, true), Lit("]")] + q;
    var q1 := [a1] + q2;
    assert ElementPattern + q == [a0] + q1;
    var s1 := idx + ("]" + rest);
    var s0 := "[" + s1;
    var ps2 := IndexPieces(idx, q, rest, pq);
    Step(a1, q2, "[", s1, ps2);
    var ps1 := ["["] + ps2;
    Step(a0, q1, arr, s0, ps1);
    ps := [arr] + ps1;
  }

  /** The split of an index followed by `]`. */
  lemma IndexPieces(idx: string, q: seq<Atom>, rest: string, pq: seq<string>) returns (ps: seq<string>)
    requires IsWord(idx)
    requires Pieces(q, rest) == Some(pq)
    ensures Pieces([Run(Word, true, true), Lit("]")] + q, idx + ("]" + rest)) == Some(ps)
    ensures ps == [idx, "]"] + pq
  {
    var a2, a3 := Run(Word, true, true), Lit("]");
    var q3 := [a3] + q;
    assert [a2, a3] + q == [a2] + q3;
    var s2 := "]" + rest;
    Step(a3, q, "]", rest, pq);
    var ps3 := ["]"] + pq;
    Step(a2, q3, idx, s2, ps3);
    ps := [idx] + ps3;
  }

  /** The load pattern does not match an array store: no `=` follows any part of the first name. */
  lemma LoadNotStore(arr: string, tail: string)
    requires IsWord(arr)
    ensures MatchLoad(arr + ("[" + tail)).None?
  {
    var s := arr + ("[" + tail);
    var p := LoadPattern;
    assert ("[" + tail)[0] == '[';
    SpanOf(arr, "[" + tail, Word);
    forall m | 0 <= m <= |arr|
      ensures Pieces(p[1..], s[m..]).None?
    {
      var x := s[m..];
      assert x[0] == if m < |arr| then arr[m] else '[';
      assert Span(x, Space) == 0;
      var q := p[1..];
      assert q[0] == Run(Space, false, false) && q[1..][0] == Lit("=");
      assert !StartsWith(x, "=") by { assert x[..1][0] == x[0]; }
      assert Pieces(q[1..], x[0..]) == None by { assert x[0..] == x; }
      assert RunPieces(q, x, 0) == None;
    }
    RunFailsAll(p, s, |arr|);
  }

  // ---------------------------------------------------------------------------------------
  // Array stores: `(\w+)\[(\w+)\]\s*=\s*(\w+)`.
  // ---------------------------------------------------------------------------------------

  /** `\s*=\s*(\w+)`. */
  const AssignedPattern: seq<Atom> := [Run(Space, false, false), Lit("="), Run(Space, false, false), Run(Word, true, true)]

  const StorePattern: seq<Atom> := ElementPattern + AssignedPattern

  /** Array, index and source of an array store. */
  function MatchStore(s: string): (r: Option<(string, string, string)>)
    ensures r.Some? ==> IsWord(r.value.0) && IsWord(r.value.1) && IsWord(r.value.2) && '[' in s
  {
    match Pieces(StorePattern, s)
    case None => None
    case Some(ps) =>
      PiecesSound(StorePattern, s);
      assert Fits(StorePattern[0], ps[0]) && Fits(StorePattern[2], ps[2]) && Fits(StorePattern[7], ps[7]);
      assert Fits(StorePattern[1], ps[1]);
      PieceIn(s, ps, 1, '[');
      Some((ps[0], ps[2], ps[7]))
  }

  /** An array store `arr[idx] = src`, with any whitespace around `=` and anything after it that does not continue `src`, reads back as its three names. */
  lemma StoreRoundTrip(arr: string, idx: string, sp1: string, sp2: string, src: string, rest: string)
    requires IsWord(arr) && IsWord(idx) && AllSpace(sp1) && AllSpace(sp2) && IsWord(src)
    requires rest == [] || !IsWordChar(rest[0])
    ensures MatchStore(arr + ("[" + (idx + ("]" + (sp1 + ("=" + (sp2 + (src + rest)))))))) == Some((arr, idx, src))
  {
    var ps := StorePieces(arr, idx, sp1, sp2, src, rest);
    assert ps[0] == arr && ps[2] == idx && ps[7] == src;
  }

  /** The split the store pattern finds in such a text. */
  lemma StorePieces(arr: string, idx: string, sp1: string, sp2: string, src: string, rest: string) returns (ps: seq<string>)
    requires IsWord(arr) && IsWord(idx) && AllSpace(sp1) && AllSpace(sp2) && IsWord(src)
    requires rest == [] || !IsWordChar(rest[0])
    ensures Pieces(StorePattern, arr + ("[" + (idx + ("]" + (sp1 + ("=" + (sp2 + (src + rest)))))))) == Some(ps)
    ensures |ps| == 8 && ps[0] == arr && ps[2] == idx && ps[7] == src
  {
    var pa := AssignedPieces(sp1, sp2, src, rest);
    ps := ElementPieces(arr, idx, AssignedPattern, sp1 + ("=" + (sp2 + (src + rest))), pa);
  }

  /** The split of the assignment of a store. */
  lemma AssignedPieces(sp1: string, sp2: string, src: string, rest: string) returns (ps: seq<string>)
    requires AllSpace(sp1) && AllSpace(sp2) && IsWord(src)
    requires rest == [] || !IsWordChar(rest[0])
    ensures Pieces(AssignedPattern, sp1 + ("=" + (sp2 + (src + rest)))) == Some(ps)
    ensures ps == [sp1, "=", sp2, src]
  {
    var a4, a5, a6, a7 := Run(Space, false, false), Lit("="), Run(Space, false, false), Run(Word, true, true);
    var q7 := [a7];
    var q6 := [a6] + q7;
    var q5 := [a5] + q6;
    assert AssignedPattern == [a4] + q5;
    var s6 := src + rest;
    var s5 := sp2 + s6;
    var s4 := "=" + s5;
    assert Pieces([], rest) == Some([]);
    assert q7 == [a7] + [];
    Step(a7, [], src, rest, []);
    var ps7 := [src] + [];
    Step(a6, q7, sp2, s6, ps7);
    var ps6 := [sp2] + ps7;
    Step(a5, q6, "=", s5, ps6);
    var ps5 := ["="] + ps6;
    Step(a4, q5, sp1, s4, ps5);
    ps := [sp1] + ps5;
  }

  // ---------------------------------------------------------------------------------------
  // Conditional branches:
  // `if\s+(\w+)\s*(<=|>=|==|!=|<|>)\s*(\w+)\s*then\s*goto\s*\(?([0-9]+)\)?`.
  // ---------------------------------------------------------------------------------------

  /** The six comparators of the branch pattern, in the order the alternation tries them. */
  const Comparators: seq<string> := ["<=", ">=", "==", "!=", "<", ">"]

  /** The elements after the second operand: `\s*then\s*goto\s*\(?([0-9]+)\)?`. */
  const BranchTailPattern: seq<Atom> := [Run(Space, false, false), Lit("then"), Run(Space, false, false)] + GotoPattern

  /** `if\s+(\w+)\s*`. */
  const IfHeadPattern: seq<Atom> := [Lit("if"), Run(Space, true, false), Run(Word, true, true), Run(Space, false, false)]

  /** `(<=|>=|==|!=|<|>)\s*(\w+)`. */
  const ComparisonPattern: seq<Atom> := [Alt(Comparators, true), Run(Space, false, false), Run(Word, true, true)]

  const IfPattern: seq<Atom> := IfHeadPattern + ComparisonPattern + BranchTailPattern

  /** The two operands, the comparator and the target number of a branch. */
  function MatchIf(s: string): (r: Option<(string, string, string, string)>)
    ensures r.Some? ==> IsWord(r.value.0) && r.value.1 in Comparators && IsWord(r.value.2) && IsDigits(r.value.3)
  {
    match Pieces(IfPattern, s)
    case None => None
    case Some(ps) =>
      PiecesSound(IfPattern, s);
      assert Fits(IfPattern[2], ps[2]) && Fits(IfPattern[4], ps[4]) && Fits(IfPattern[6], ps[6]) && Fits(IfPattern[13], ps[13]);
      Some((ps[2], ps[4], ps[6], ps[13]))
  }

  /** What `MatchIf` reads off a split of the branch pattern. */
  lemma MatchIfPieces(s: string, ps: seq<string>)
    requires Pieces(IfPattern, s) == Some(ps)
    ensures |ps| == 15 && MatchIf(s) == Some((ps[2], ps[4], ps[6], ps[13]))
  {
    PiecesSound(IfPattern, s);
  }

  /** The branch pattern does not match `if`, whitespace and then `=`: no operand follows the keyword. */
  lemma IfNotAssignment(sp: string, tail: string)
    requires AllSpace(sp) && tail != [] && tail[0] == '='
    ensures MatchIf("if" + (sp + tail)).None?
  {
    var s := "if" + (sp + tail);
    assert IfPattern[0] == Lit("if") && StartsWith(s, "if") && s[|"if"|..] == sp + tail;
    NoOperandAfterIf(sp, tail);
    assert Pieces(IfPattern, s) == Then("if", Pieces(IfPattern[1..], sp + tail));
  }

  lemma NoOperandAfterIf(sp: string, tail: string)
    requires AllSpace(sp) && tail != [] && tail[0] == '='
    ensures Pieces(IfPattern[1..], sp + tail).None?
  {
    var x := sp + tail;
    var q := IfPattern[1..];
    assert q[0] == Run(Space, true, false) && q[1..][0] == Run(Word, true, true);
    SpanOf(sp, tail, Space);
    forall m | 0 <= m <= |sp|
      ensures Pieces(q[1..], x[m..]).None?
    {
      assert x[m..] != [] && x[m..][0] == (if m < |sp| then sp[m] else '=');
      RunFails(q[1..], x[m..]);
    }
    RunFailsAll(q, x, |sp|);
    assert Pieces(q, x) == RunPieces(q, x, Span(x, Space));
  }

  /** The split the tail of the branch pattern finds after the second operand. */
  lemma BranchTailPieces(sp3: string, sp4: string, sp5: string, open: bool, t: string, close: bool, rest: string)
    returns (ps: seq<string>)
    requires AllSpace(sp3) && AllSpace(sp4) && AllSpace(sp5) && IsDigits(t)
    requires !close ==> rest == [] || (!IsDigit(rest[0]) && rest[0] != ')')
    ensures Pieces(BranchTailPattern, sp3 + ("then" + (sp4 + ("goto" + (sp5 + (Opt(open, '(') + (t + (Opt(close, ')') + rest)))))))) == Some(ps)
    ensures |ps| == 8 && ps[6] == t
  {
    var a0, a1, a2 := Run(Space, false, false), Lit("then"), Run(Space, false, false);
    var q2 := [a2] + GotoPattern;
    var q1 := [a1] + q2;
    assert BranchTailPattern == [a0] + q1;
    var s2 := "goto" + (sp5 + (Opt(open, '(') + (t + (Opt(close, ')') + rest))));
    var s1 := sp4 + s2;
    var s0 := "then" + s1;
    var pg := GotoPieces(sp5, open, t, close, rest);
    Step(a2, GotoPattern, sp4, s2, pg);
    var ps2 := [sp4] + pg;
    Step(a1, q2, "then", s1, ps2);
    var ps1 := ["then"] + ps2;
    Step(a0, q1, sp3, s0, ps1);
    ps := [sp3] + ps1;
  }

  /** The first comparator a text starts with, when a character other than `=` follows the comparator. */
  lemma ComparatorFirst(op: string, next: string)
    requires op in Comparators && next != [] && next[0] != '='
    ensures FirstOption(Comparators, op + next) == Some(op)
  {
    var s := op + next;
    assert s[0] == op[0];
    if |op| == 2 {
      assert s[..2] == op;
    } else {
      assert s[1] == next[0] && s[..1] == op;
    }
    var k :| 0 <= k < |Comparators| && Comparators[k] == op;
    forall i | 0 <= i < k
      ensures !StartsWith(s, Comparators[i])
    {
      var c := Comparators[i];
      if |c| == 2 && |c| <= |s| {
        assert s[..2][0] == s[0] && s[..2][1] == s[1];
      }
    }
    FirstOptionAt(Comparators, k, s);
  }

  /** The alternatives are tried in order: the first one the text starts with is taken. */
  lemma {:induction false} FirstOptionAt(options: seq<string>, k: nat, t: string)
    requires k < |options| && StartsWith(t, options[k])
    requires forall i :: 0 <= i < k ==> !StartsWith(t, options[i])
    ensures FirstOption(options, t) == Some(options[k])
    decreases k
  {
    if k > 0 {
      assert forall i :: 0 <= i < k - 1 ==> options[1..][i] == options[i + 1];
      FirstOptionAt(options[1..], k - 1, t);
    }
  }

  /**
   * A branch reads back as its operands, comparator and target when whitespace separates
   * the second operand from `then`. (When `then` follows the operand directly, the
   * operand's run of word characters goes on into `then` and the engine gives characters
   * back until the rest matches; see `IfBacktrack`.)
   */
  lemma IfRoundTrip(sp0: string, a: string, sp1: string, op: string, sp2: string, b: string,
                    sp3: string, sp4: string, sp5: string, open: bool, t: string, close: bool, rest: string)
    requires sp0 != [] && AllSpace(sp0) && IsWord(a) && AllSpace(sp1) && op in Comparators && AllSpace(sp2) && IsWord(b)
    requires sp3 != [] && AllSpace(sp3) && AllSpace(sp4) && AllSpace(sp5) && IsDigits(t)
    requires !close ==> rest == [] || (!IsDigit(rest[0]) && rest[0] != ')')
    ensures MatchIf("if" + (sp0 + (a + (sp1 + (op + (sp2 + (b + (sp3 + ("then" + (sp4 + ("goto" + (sp5 + (Opt(open, '(') + (t + (Opt(close, ')') + rest)))))))))))))))
      == Some((a, op, b, t))
  {
    var tail := sp3 + ("then" + (sp4 + ("goto" + (sp5 + (Opt(open, '(') + (t + (Opt(close, ')') + rest)))))));
    var s4 := op + (sp2 + (b + tail));
    var ps := IfPieces(sp0, a, sp1, op, sp2, b, sp3, sp4, sp5, open, t, close, rest);
    MatchIfPieces("if" + (sp0 + (a + (sp1 + s4))), ps);
  }

  /** The split behind `IfRoundTrip`. */
  lemma IfPieces(sp0: string, a: string, sp1: string, op: string, sp2: string, b: string,
                 sp3: string, sp4: string, sp5: string, open: bool, t: string, close: bool, rest: string)
    returns (ps: seq<string>)
    requires sp0 != [] && AllSpace(sp0) && IsWord(a) && AllSpace(sp1) && op in Comparators && AllSpace(sp2) && IsWord(b)
    requires sp3 != [] && AllSpace(sp3) && AllSpace(sp4) && AllSpace(sp5) && IsDigits(t)
    requires !close ==> rest == [] || (!IsDigit(rest[0]) && rest[0] != ')')
    ensures Pieces(IfPattern, "if" + (sp0 + (a + (sp1 + (op + (sp2 + (b + (sp3 + ("then" + (sp4 + ("goto" + (sp5 + (Opt(open, '(') + (t + (Opt(close, ')') + rest)))))))))))))))
      == Some(ps)
    ensures |ps| == 15 && ps[2] == a && ps[4] == op && ps[6] == b && ps[13] == t
  {
    var s4 := op + (sp2 + (b + (sp3 + ("then" + (sp4 + ("goto" + (sp5 + (Opt(open, '(') + (t + (Opt(close, ')') + rest))))))))));
    var pc := ComparisonOnPieces(op, sp2, b, sp3, sp4, sp5, open, t, close, rest);
    ps := IfHeadPieces(sp0, a, sp1, s4, pc);
  }

  /** The split from the comparator on, when whitespace separates the second operand from `then`. */
  lemma ComparisonOnPieces(op: string, sp2: string, b: string,
                           sp3: string, sp4: string, sp5: string, open: bool, t: string, close: bool, rest: string)
    returns (ps: seq<string>)
    requires op in Comparators && AllSpace(sp2) && IsWord(b)
    requires sp3 != [] && AllSpace(sp3) && AllSpace(sp4) && AllSpace(sp5) && IsDigits(t)
    requires !close ==> rest == [] || (!IsDigit(rest[0]) && rest[0] != ')')
    ensures Pieces(ComparisonPattern + BranchTailPattern, op + (sp2 + (b + (sp3 + ("then" + (sp4 + ("goto" + (sp5 + (Opt(open, '(') + (t + (Opt(close, ')') + rest)))))))))))
      == Some(ps)
    ensures |ps| == 11 && ps[0] == op && ps[2] == b && ps[9] == t
    ensures (op + (sp2 + (b + (sp3 + ("then" + (sp4 + ("goto" + (sp5 + (Opt(open, '(') + (t + (Opt(close, ')') + rest)))))))))))[0] == op[0]
  {
    var tail := sp3 + ("then" + (sp4 + ("goto" + (sp5 + (Opt(open, '(') + (t + (Opt(close, ')') + rest)))))));
    var pt := BranchTailPieces(sp3, sp4, sp5, open, t, close, rest);
    assert tail[0] == sp3[0];
    var ps6 := OperandPieces(b, tail, pt);
    assert (b + tail)[0] == b[0];
    ps := ComparisonPieces(op, sp2, b + tail, ps6);
  }

  /** The split the branch pattern finds, given the split of what follows the first operand. */
  lemma IfHeadPieces(sp0: string, a: string, sp1: string, s4: string, pc: seq<string>) returns (ps: seq<string>)
    requires sp0 != [] && AllSpace(sp0) && IsWord(a) && AllSpace(sp1)
    requires s4 != [] && !IsSpace(s4[0]) && !IsWordChar(s4[0])
    requires Pieces(ComparisonPattern + BranchTailPattern, s4) == Some(pc)
    ensures Pieces(IfPattern, "if" + (sp0 + (a + (sp1 + s4)))) == Some(ps)
    ensures ps == ["if", sp0, a, sp1] + pc
  {
    var a0, a1 := Lit("if"), Run(Space, true, false);
    var q2 := [Run(Word, true, true), Run(Space, false, false)] + (ComparisonPattern + BranchTailPattern);
    var q1 := [a1] + q2;
    assert IfPattern == [a0] + q1;
    var s2 := a + (sp1 + s4);
    var s1 := sp0 + s2;
    var ps2 := FirstOperandPieces(a, sp1, s4, pc);
    assert s2[0] == a[0];
    Step(a1, q2, sp0, s2, ps2);
    var ps1 := [sp0] + ps2;
    Step(a0, q1, "if", s1, ps1);
    ps := ["if"] + ps1;
  }

  /** The first operand and the whitespace after it, before the comparator. */
  lemma FirstOperandPieces(a: string, sp1: string, s4: string, pc: seq<string>) returns (ps: seq<string>)
    requires IsWord(a) && AllSpace(sp1)
    requires s4 != [] && !IsSpace(s4[0]) && !IsWordChar(s4[0])
    requires Pieces(ComparisonPattern + BranchTailPattern, s4) == Some(pc)
    ensures Pieces([Run(Word, true, true), Run(Space, false, false)] + (ComparisonPattern + BranchTailPattern), a + (sp1 + s4)) == Some(ps)
    ensures ps == [a, sp1] + pc
  {
    var a2, a3 := Run(Word, true, true), Run(Space, false, false);
    var q4 := ComparisonPattern + BranchTailPattern;
    var q3 := [a3] + q4;
    assert [a2, a3] + q4 == [a2] + q3;
    var s3 := sp1 + s4;
    Step(a3, q4, sp1, s4, pc);
    var ps3 := [sp1] + pc;
    assert s3[0] == if sp1 != [] then sp1[0] else s4[0];
    Step(a2, q3, a, s3, ps3);
    ps := [a] + ps3;
  }

  /** The split of the comparison, given the split from the second operand on. */
  lemma ComparisonPieces(op: string, sp2: string, bt: string, ps6: seq<string>) returns (ps: seq<string>)
    requires op in Comparators && AllSpace(sp2) && bt != [] && IsWordChar(bt[0])
    requires Pieces(OperandPattern, bt) == Some(ps6)
    ensures Pieces(ComparisonPattern + BranchTailPattern, op + (sp2 + bt)) == Some(ps)
    ensures ps == [op, sp2] + ps6
  {
    var a4, a5 := Alt(Comparators, true), Run(Space, false, false);
    var q5 := [a5] + OperandPattern;
    assert ComparisonPattern + BranchTailPattern == [a4] + q5;
    var s5 := sp2 + bt;
    var ps5 := SpacedOperandPieces(sp2, bt, ps6);
    ComparatorStep(op, q5, s5, ps5);
    ps := [op] + ps5;
  }

  /** The comparator alternation takes the whole comparator when no `=` follows it. */
  lemma ComparatorStep(op: string, q: seq<Atom>, next: string, pq: seq<string>)
    requires op in Comparators && next != [] && next[0] != '='
    requires Pieces(q, next) == Some(pq)
    ensures Pieces([Alt(Comparators, true)] + q, op + next) == Some([op] + pq)
  {
    ComparatorFirst(op, next);
    Step(Alt(Comparators, true), q, op, next, pq);
  }

  /** Whitespace before the second operand is a piece of its own, and what follows it is no `=`. */
  lemma SpacedOperandPieces(sp2: string, bt: string, ps6: seq<string>) returns (ps: seq<string>)
    requires AllSpace(sp2) && bt != [] && IsWordChar(bt[0])
    requires Pieces(OperandPattern, bt) == Some(ps6)
    ensures Pieces([Run(Space, false, false)] + OperandPattern, sp2 + bt) == Some(ps)
    ensures ps == [sp2] + ps6 && sp2 + bt != [] && (sp2 + bt)[0] != '='
  {
    Step(Run(Space, false, false), OperandPattern, sp2, bt, ps6);
    ps := [sp2] + ps6;
    if sp2 != [] { assert (sp2 + bt)[0] == sp2[0]; } else { assert (sp2 + bt)[0] == bt[0]; }
  }

  /** The second operand and everything after it: `(\w+)\s*then\s*goto\s*\(?([0-9]+)\)?`. */
  const OperandPattern: seq<Atom> := [Run(Word, true, true)] + BranchTailPattern

  /** The split from the second operand on, when whitespace ends the operand. */
  lemma OperandPieces(b: string, tail: string, pt: seq<string>) returns (ps: seq<string>)
    requires IsWord(b) && (tail == [] || !IsWordChar(tail[0]))
    requires Pieces(BranchTailPattern, tail) == Some(pt)
    ensures Pieces(OperandPattern, b + tail) == Some(ps)
    ensures ps == [b] + pt
  {
    Step(Run(Word, true, true), BranchTailPattern, b, tail, pt);
    ps := [b] + pt;
  }

  /**
   * The split from the second operand on, when `then` follows the operand directly: the
   * run of word characters first takes `then` as well, finds no `then` after it at any of
   * the four lengths it gives back, and stops at the operand.
   */
  lemma OperandGivesBack(b: string, sp4: string, tail: string, pt: seq<string>) returns (ps: seq<string>)
    requires IsWord(b) && sp4 != [] && AllSpace(sp4) && StartsWith(tail, "goto")
    requires Pieces(BranchTailPattern, "then" + (sp4 + tail)) == Some(pt)
    ensures Pieces(OperandPattern, b + ("then" + (sp4 + tail))) == Some(ps)
    ensures ps == [b] + pt
  {
    var w := b + ("then" + (sp4 + tail));
    var p := OperandPattern;
    var x := sp4 + tail;
    assert w == (b + "then") + x;
    assert x[0] == sp4[0];
    SpanOf(b + "then", x, Word);
    SpanOf(sp4, tail, Space);
    assert w[|b|..] == "then" + x;
    forall m | |b| < m <= |b| + 4
      ensures Pieces(p[1..], w[m..]).None?
    {
      assert p[1..] == BranchTailPattern;
      var y := w[m..];
      if m < |b| + 4 {
        assert y[0] == "then"[m - |b|];
        assert Span(y, Space) == 0;
      } else {
        assert y == x;
        forall k | 0 <= k <= |sp4|
          ensures !StartsWith(y[k..], "then")
        {
          if k < |sp4| {
            assert y[k..][0] == sp4[k];
          } else {
            assert y[k..] == tail;
          }
        }
      }
      NoThen(y);
    }
    RunSkips(p, w, |b| + 4, |b|);
    assert w[..|b|] == b;
    ps := [b] + pt;
  }

  /** A run at the front that fails for every length above `k` takes `k` characters. */
  lemma {:induction false} RunSkips(p: seq<Atom>, s: string, n: nat, k: nat)
    requires p != [] && p[0].Run? && n <= |s| && k <= n && (p[0].plus ==> 1 <= k)
    requires forall m :: k < m <= n ==> Pieces(p[1..], s[m..]).None?
    ensures RunPieces(p, s, n) == RunPieces(p, s, k)
    decreases n - k
  {
    if k < n {
      RunSkips(p, s, n - 1, k);
    }
  }

  /** A run at the front fails when the rest fails after every length it can take. */
  lemma {:induction false} RunFailsAll(p: seq<Atom>, s: string, n: nat)
    requires p != [] && p[0].Run? && n <= |s|
    requires forall m :: 0 <= m <= n ==> Pieces(p[1..], s[m..]).None?
    ensures RunPieces(p, s, n).None?
    decreases n
  {
    if n > 0 {
      RunFailsAll(p, s, n - 1);
    }
  }

  /** The tail of the branch pattern fails on a text in which `then` does not follow its leading whitespace. */
  lemma NoThen(x: string)
    requires forall m :: 0 <= m <= Span(x, Space) ==> !StartsWith(x[m..], "then")
    ensures Pieces(BranchTailPattern, x).None?
  {
    assert BranchTailPattern[1..][0] == Lit("then");
    RunFailsAll(BranchTailPattern, x, Span(x, Space));
  }

  /**
   * A branch whose second operand runs straight into `then` still reads back as its
   * operands, comparator and target: the engine backtracks into the operand.
   */
  lemma IfBacktrack(sp0: string, a: string, sp1: string, op: string, sp2: string, b: string,
                    sp4: string, sp5: string, open: bool, t: string, close: bool, rest: string)
    requires sp0 != [] && AllSpace(sp0) && IsWord(a) && AllSpace(sp1) && op in Comparators && AllSpace(sp2) && IsWord(b)
    requires sp4 != [] && AllSpace(sp4) && AllSpace(sp5) && IsDigits(t)
    requires !close ==> rest == [] || (!IsDigit(rest[0]) && rest[0] != ')')
    ensures MatchIf("if" + (sp0 + (a + (sp1 + (op + (sp2 + (b + ("then" + (sp4 + ("goto" + (sp5 + (Opt(open, '(') + (t + (Opt(close, ')') + rest))))))))))))))
      == Some((a, op, b, t))
  {
    var tail := "goto" + (sp5 + (Opt(open, '(') + (t + (Opt(close, ')') + rest))));
    var s4 := op + (sp2 + (b + ("then" + (sp4 + tail))));
    var ps := BacktrackPieces(sp0, a, sp1, op, sp2, b, sp4, sp5, open, t, close, rest);
    MatchIfPieces("if" + (sp0 + (a + (sp1 + s4))), ps);
  }

  /** The split behind `IfBacktrack`. */
  lemma BacktrackPieces(sp0: string, a: string, sp1: string, op: string, sp2: string, b: string,
                        sp4: string, sp5: string, open: bool, t: string, close: bool, rest: string)
    returns (ps: seq<string>)
    requires sp0 != [] && AllSpace(sp0) && IsWord(a) && AllSpace(sp1) && op in Comparators && AllSpace(sp2) && IsWord(b)
    requires sp4 != [] && AllSpace(sp4) && AllSpace(sp5) && IsDigits(t)
    requires !close ==> rest == [] || (!IsDigit(rest[0]) && rest[0] != ')')
    ensures Pieces(IfPattern, "if" + (sp0 + (a + (sp1 + (op + (sp2 + (b + ("then" + (sp4 + ("goto" + (sp5 + (Opt(open, '(') + (t + (Opt(close, ')') + rest))))))))))))))
      == Some(ps)
    ensures |ps| == 15 && ps[2] == a && ps[4] == op && ps[6] == b && ps[13] == t
  {
    var tail := "goto" + (sp5 + (Opt(open, '(') + (t + (Opt(close, ')') + rest))));
    var s4 := op + (sp2 + (b + ("then" + (sp4 + tail))));
    var pc := BacktrackComparisonOn(op, sp2, b, sp4, sp5, open, t, close, rest);
    ps := IfHeadPieces(sp0, a, sp1, s4, pc);
  }

  /** The split from the comparator on, when `then` follows the second operand directly. */
  lemma BacktrackComparisonOn(op: string, sp2: string, b: string,
                              sp4: string, sp5: string, open: bool, t: string, close: bool, rest: string)
    returns (ps: seq<string>)
    requires op in Comparators && AllSpace(sp2) && IsWord(b)
    requires sp4 != [] && AllSpace(sp4) && AllSpace(sp5) && IsDigits(t)
    requires !close ==> rest == [] || (!IsDigit(rest[0]) && rest[0] != ')')
    ensures Pieces(ComparisonPattern + BranchTailPattern, op + (sp2 + (b + ("then" + (sp4 + ("goto" + (sp5 + (Opt(open, '(') + (t + (Opt(close, ')') + rest))))))))))
      == Some(ps)
    ensures |ps| == 11 && ps[0] == op && ps[2] == b && ps[9] == t
    ensures (op + (sp2 + (b + ("then" + (sp4 + ("goto" + (sp5 + (Opt(open, '(') + (t + (Opt(close, ')') + rest))))))))))[0] == op[0]
  {
    var tail := "goto" + (sp5 + (Opt(open, '(') + (t + (Opt(close, ')') + rest))));
    var pt := BranchTailPieces([], sp4, sp5, open, t, close, rest);
    assert [] + ("then" + (sp4 + tail)) == "then" + (sp4 + tail);
    ps := BacktrackComparison(op, sp2, b, sp4, tail, pt);
  }

  /** The split from the comparator on, when the second operand runs into `then`. */
  lemma BacktrackComparison(op: string, sp2: string, b: string, sp4: string, tail: string, pt: seq<string>)
    returns (ps: seq<string>)
    requires op in Comparators && AllSpace(sp2) && IsWord(b) && sp4 != [] && AllSpace(sp4) && StartsWith(tail, "goto")
    requires Pieces(BranchTailPattern, "then" + (sp4 + tail)) == Some(pt)
    ensures Pieces(ComparisonPattern + BranchTailPattern, op + (sp2 + (b + ("then" + (sp4 + tail))))) == Some(ps)
    ensures ps == [op, sp2, b] + pt
  {
    var ps6 := OperandGivesBack(b, sp4, tail, pt);
    var bt := b + ("then" + (sp4 + tail));
    assert bt[0] == b[0];
    ps := ComparisonPieces(op, sp2, bt, ps6);
  }

  // ---------------------------------------------------------------------------------------
  // The statement patterns as splits.
  // ---------------------------------------------------------------------------------------

  /**
   * Each of the four statement patterns matches exactly when some prefix of the text splits
   * into pieces of its elements' forms, whatever the order the engine tries them in.
   */
  lemma MatchesIff(s: string)
    ensures MatchGoto(s).Some? <==> Splits(GotoPattern, s)
    ensures MatchLoad(s).Some? <==> Splits(LoadPattern, s)
    ensures MatchStore(s).Some? <==> Splits(StorePattern, s)
    ensures MatchIf(s).Some? <==> Splits(IfPattern, s)
  {
    PiecesIff(GotoPattern, s);
    PiecesIff(LoadPattern, s);
    PiecesIff(StorePattern, s);
    PiecesIff(IfPattern, s);
  }
}
