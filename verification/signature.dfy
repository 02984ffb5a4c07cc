/** The board signature (one character per cell, row by row), the
    insufficient-material test that reads it and the repetition count over the
    history of signatures. */
module BoardSignature {
  import opened Pieces
  import opened Board

  function KindLetter(k: Kind): (r: char)
  {
    match k
    case King => 'k'
    case Queen => 'q'
    case Rook => 'r'
    case Bishop => 'b'
    case Knight => 'n'
    case Pawn => 'p'
  }

  /** Char.ToUpper on the ASCII letters the signature uses. */
  function ToUpper(c: char): (r: char)
  {
    if 'a' <= c <= 'z' then (c as int - 32) as char else c
  }

  /** Char.ToLower on ASCII letters. */
  function ToLower(c: char): (r: char)
  {
    if 'A' <= c <= 'Z' then (c as int + 32) as char else c
  }

  /** The character of one cell: blank when empty, otherwise the type letter,
      lower case for White and upper case for Black. */
  function CellChar(cell: Option<Piece>): (r: char)
  {
    match cell
    case None => ' '
    case Some(p) => if p.color == Black then ToUpper(KindLetter(p.kind)) else KindLetter(p.kind)
  }

  function RowSignature(row: seq<Option<Piece>>): (s: string)
    requires |row| == 8
  {
    seq(8, j requires 0 <= j < 8 => CellChar(row[j]))
  }

  /** The signature of the first n rows. */
  function SignatureOfRows(g: Grid, n: int): (s: string)
    requires IsGrid(g) && 0 <= n <= 8
    ensures |s| == 8 * n
  {
    if n == 0 then "" else SignatureOfRows(g, n - 1) + RowSignature(g[n - 1])
  }

  /** Game.StringifyBoard as a value. */
  function Signature(g: Grid): (s: string)
    requires IsGrid(g)
    ensures |s| == 64
  {
    SignatureOfRows(g, 8)
  }

  lemma {:induction false} SignatureOfRowsAt(g: Grid, n: int, i: int, j: int)
    requires IsGrid(g) && 0 <= i < n <= 8 && 0 <= j < 8
    ensures SignatureOfRows(g, n)[8 * i + j] == CellChar(g[i][j])
  {
    if i < n - 1 {
      SignatureOfRowsAt(g, n - 1, i, j);
    }
  }

  /** Character 8*i+j of the signature encodes cell (i, j). */
  lemma SignatureAt(g: Grid, i: int, j: int)
    requires IsGrid(g) && 0 <= i < 8 && 0 <= j < 8
    ensures Signature(g)[8 * i + j] == CellChar(g[i][j])
  {
    SignatureOfRowsAt(g, 8, i, j);
  }

  /** What a cell's character says: blank exactly for an empty cell, a lower
      case letter exactly for a White piece, an upper case one exactly for a
      Black piece. */
  lemma CellCharMeaning(cell: Option<Piece>)
    ensures CellChar(cell) == ' ' <==> cell.None?
    ensures 'a' <= CellChar(cell) <= 'z' <==> cell.Some? && cell.value.color == White
    ensures 'A' <= CellChar(cell) <= 'Z' <==> cell.Some? && cell.value.color == Black
    ensures cell.Some? ==> ToLower(CellChar(cell)) == KindLetter(cell.value.kind)
  {
  }

  /** The character of a cell is determined by, and determines, the type and
      colour of its piece (the en-passant flags are not encoded). */
  lemma CellCharIsIdentity(a: Option<Piece>, b: Option<Piece>)
    ensures CellChar(a) == CellChar(b) <==> Identity(a) == Identity(b)
  {
  }

  /** Two boards have the same signature exactly when every cell holds the
      same type and colour. */
  lemma SignatureDeterminesPieces(g: Grid, h: Grid)
    requires IsGrid(g) && IsGrid(h)
    ensures Signature(g) == Signature(h) <==>
              forall i, j :: 0 <= i < 8 && 0 <= j < 8 ==> Identity(g[i][j]) == Identity(h[i][j])
  {
    if Signature(g) == Signature(h) {
      forall i, j | 0 <= i < 8 && 0 <= j < 8 ensures Identity(g[i][j]) == Identity(h[i][j]) {
        SignatureAt(g, i, j);
        SignatureAt(h, i, j);
        CellCharIsIdentity(g[i][j], h[i][j]);
      }
    }
    if forall i, j :: 0 <= i < 8 && 0 <= j < 8 ==> Identity(g[i][j]) == Identity(h[i][j]) {
      forall k | 0 <= k < 64 ensures Signature(g)[k] == Signature(h)[k] {
        var i, j := k / 8, k % 8;
        SignatureAt(g, i, j);
        SignatureAt(h, i, j);
        CellCharIsIdentity(g[i][j], h[i][j]);
      }
    }
  }

  // ----- Counting -----

  /** How many times x occurs in s (the count of LINQ's GroupBy). */
  function Occurrences<T(==)>(s: seq<T>, x: T): nat
  {
    if |s| == 0 then 0 else Occurrences(s[..|s| - 1], x) + (if s[|s| - 1] == x then 1 else 0)
  }

  lemma {:induction false} OccurrencesAppend<T>(s: seq<T>, y: T, x: T)
    ensures Occurrences(s + [y], x) == Occurrences(s, x) + (if y == x then 1 else 0)
  {
    assert (s + [y])[..|s|] == s;
  }

  /** Two different positions holding x mean x occurs at least twice. */
  lemma {:induction false} OccurrencesOfTwo<T>(s: seq<T>, a: int, b: int, x: T)
    requires 0 <= a < b < |s| && s[a] == x && s[b] == x
    ensures Occurrences(s, x) >= 2
  {
    if b < |s| - 1 {
      OccurrencesOfTwo(s[..|s| - 1], a, b, x);
    } else {
      OccurrencesOfOne(s[..|s| - 1], a, x);
    }
  }

  lemma {:induction false} OccurrencesOfOne<T>(s: seq<T>, a: int, x: T)
    requires 0 <= a < |s| && s[a] == x
    ensures Occurrences(s, x) >= 1
  {
    if a < |s| - 1 {
      OccurrencesOfOne(s[..|s| - 1], a, x);
    }
  }

  // ----- Insufficient material -----

  /** Game.IsThereSuficientMaterial on a signature: a pawn of either colour
      (the case-insensitive Contains), or some character other than p/P that
      occurs more than once. The blank of the empty cells is one such
      character. */
  predicate IsThereSufficientMaterial(s: string)
  {
    || 'p' in s || 'P' in s
    || exists k :: 0 <= k < |s| && ToLower(s[k]) != 'p' && Occurrences(s, s[k]) > 1
  }

  /** As written, the test reports sufficient material on every board with at
      least two empty cells: the blanks form a group of more than one. */
  lemma TwoEmptyCellsMeanSufficientMaterial(g: Grid, i1: int, j1: int, i2: int, j2: int)
    requires IsGrid(g) && IsValidPosition(i1, j1) && IsValidPosition(i2, j2) && (i1, j1) != (i2, j2)
    requires g[i1][j1].None? && g[i2][j2].None?
    ensures IsThereSufficientMaterial(Signature(g))
  {
    var s := Signature(g);
    SignatureAt(g, i1, j1);
    SignatureAt(g, i2, j2);
    var a, b := 8 * i1 + j1, 8 * i2 + j2;
    if a < b { OccurrencesOfTwo(s, a, b, ' '); } else { OccurrencesOfTwo(s, b, a, ' '); }
    assert ToLower(s[a]) != 'p' && Occurrences(s, s[a]) > 1;
  }

  /** A pawn anywhere on the board means sufficient material. */
  lemma PawnMeansSufficientMaterial(g: Grid, i: int, j: int)
    requires IsGrid(g) && IsValidPosition(i, j) && g[i][j].Some? && g[i][j].value.kind == Pawn
    ensures IsThereSufficientMaterial(Signature(g))
  {
    SignatureAt(g, i, j);
  }

  /** The characters a signature can hold besides the two pawn letters: the
      blank and the five other type letters in both cases. */
  const NonPawnChars: set<char> := {' ', 'k', 'q', 'r', 'b', 'n', 'K', 'Q', 'R', 'B', 'N'}

  lemma {:induction false} SubsetCardinality(a: set<char>, b: set<char>)
    requires a <= b
    ensures |a| <= |b|
    decreases a
  {
    if a != {} {
      var x :| x in a;
      SubsetCardinality(a - {x}, b - {x});
    }
  }

  /** A sequence without repeated elements has as many distinct elements as
      it is long. */
  lemma {:induction false} DistinctCardinality(s: seq<char>)
    requires forall i, j :: 0 <= i < j < |s| ==> s[i] != s[j]
    ensures |set c | c in s| == |s|
  {
    if |s| > 0 {
      var t := s[..|s| - 1];
      DistinctCardinality(t);
      assert (set c | c in s) == (set c | c in t) + {s[|s| - 1]};
    }
  }

  /** As written, the test reports sufficient material on every board: with
      no pawn, 64 characters drawn from the eleven of NonPawnChars must repeat
      one of them. */
  lemma AlwaysSufficient(g: Grid)
    requires IsGrid(g)
    ensures IsThereSufficientMaterial(Signature(g))
  {
    var s := Signature(g);
    forall k | 0 <= k < 64 ensures s[k] in NonPawnChars || s[k] == 'p' || s[k] == 'P' {
      SignatureAt(g, k / 8, k % 8);
    }
    if 'p' in s || 'P' in s {
      return;
    }
    SubsetCardinality((set c | c in s), NonPawnChars);
    assert |NonPawnChars| == 11;
    if forall a, b :: 0 <= a < b < 64 ==> s[a] != s[b] {
      DistinctCardinality(s);
      assert false;
    } else {
      var a, b :| 0 <= a < b < 64 && s[a] == s[b];
      OccurrencesOfTwo(s, a, b, s[a]);
      assert ToLower(s[a]) != 'p';
    }
  }

  // ----- Threefold repetition -----

  /** Some signature of the history occurs at least three times. */
  predicate HasThreefoldRepetition(h: seq<string>)
  {
    exists k :: 0 <= k < |h| && Occurrences(h, h[k]) >= 3
  }

  /** The game's test: at least six recorded positions, one of them thrice. */
  predicate IsDrawByRepetition(h: seq<string>)
  {
    |h| >= 6 && HasThreefoldRepetition(h)
  }

  /** A repetition that appears when a signature is appended is a repetition
      of that signature. */
  lemma NewRepetitionIsOfLatest(h: seq<string>, x: string)
    requires !HasThreefoldRepetition(h) && HasThreefoldRepetition(h + [x])
    ensures Occurrences(h + [x], x) >= 3
  {
    var k :| 0 <= k < |h + [x]| && Occurrences(h + [x], (h + [x])[k]) >= 3;
    var y := (h + [x])[k];
    OccurrencesAppend(h, x, y);
    if k < |h| {
      assert h[k] == y;
    }
    assert y == x;
  }
}
