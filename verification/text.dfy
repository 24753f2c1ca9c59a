/**
 * Joining rendered elements with a separator, and where each rendered
 * element ends up in the joined text.
 */
module Text {

  /** The sum of the lengths of the first k pieces. */
  function PrefixLength(parts: seq<string>, k: nat): nat
    requires k <= |parts|
  {
    if k == 0 then 0 else PrefixLength(parts, k - 1) + |parts[k - 1]|
  }

  /**
   * The first k pieces joined: parts[0] + sep + parts[1] + ... + sep +
   * parts[k-1], and "" for k = 0. It grows from the back, the way the
   * printing loop extends its output: one separator before every piece but
   * the first, none after the last.
   */
  function JoinFirst(parts: seq<string>, sep: string, k: nat): string
    requires k <= |parts|
  {
    if k == 0 then ""
    else if k == 1 then parts[0]
    else JoinFirst(parts, sep, k - 1) + sep + parts[k - 1]
  }

  /**
   * All pieces joined by sep. No pieces give the empty text, and a single
   * piece is written alone, without any separator.
   */
  function Join(parts: seq<string>, sep: string): (r: string)
    ensures parts == [] ==> r == ""
    ensures |parts| == 1 ==> r == parts[0]
  {
    JoinFirst(parts, sep, |parts|)
  }

  /**
   * Where piece i starts in the joined text: after every piece before it,
   * each followed by one separator.
   */
  function Offset(parts: seq<string>, sep: string, i: nat): nat
    requires i <= |parts|
  {
    if i == 0 then 0 else Offset(parts, sep, i - 1) + |parts[i - 1]| + |sep|
  }

  /**
   * The pieces m .. k-1, each preceded by a separator: what joining pieces
   * m .. k-1 adds after the first m pieces have been joined.
   */
  function JoinFrom(parts: seq<string>, sep: string, m: nat, k: nat): string
    requires m <= k <= |parts|
    decreases k - m
  {
    if k == m then "" else JoinFrom(parts, sep, m, k - 1) + sep + parts[k - 1]
  }

  /** Concatenation regroups freely. */
  lemma AppendAssoc(a: string, b: string, c: string)
    ensures (a + b) + c == a + (b + c)
  {
  }

  /** A slice that lies inside the left operand of a concatenation. */
  lemma SliceOfLeft(a: string, b: string, x: nat, y: nat)
    requires x <= y <= |a|
    ensures (a + b)[x..y] == a[x..y]
  {
    assert forall k :: 0 <= k < y - x ==> (a + b)[x..y][k] == a[x..y][k];
  }

  /** A slice that lies inside the right operand of a concatenation. */
  lemma SliceOfRight(a: string, b: string, x: nat, y: nat)
    requires |a| <= x <= y <= |a| + |b|
    ensures (a + b)[x..y] == b[x - |a|..y - |a|]
  {
    assert forall k :: 0 <= k < y - x ==> (a + b)[x..y][k] == b[x - |a|..y - |a|][k];
  }

  /** A slice of the middle operand of a three-way concatenation. */
  lemma SliceOfMiddle(a: string, b: string, c: string, x: nat, y: nat)
    requires x <= y <= |b|
    ensures (a + b + c)[|a| + x..|a| + y] == b[x..y]
  {
    SliceOfLeft(a + b, c, |a| + x, |a| + y);
    SliceOfRight(a, b, |a| + x, |a| + y);
  }

  /** The middle operand of a three-way concatenation, read back whole at its offset. */
  lemma Between(w: string, a: string, b: string, c: string, at: nat)
    requires w == a + b + c && at == |a|
    ensures at + |b| <= |w| && w[at..at + |b|] == b
  {
    SliceOfLeft(a + b, c, |a|, |a| + |b|);
    SliceOfRight(a, b, |a|, |a| + |b|);
    assert b[0..|b|] == b;
  }

  /**
   * One step of the printing loop: what is written so far, a separator unless
   * this is the first piece, and piece i give the first i + 1 pieces joined.
   */
  lemma JoinStep(written: string, parts: seq<string>, sep: string, i: nat)
    requires i < |parts|
    ensures written + JoinFirst(parts, sep, i) + (if i == 0 then "" else sep) + parts[i]
            == written + JoinFirst(parts, sep, i + 1)
  {
    AppendAssoc(written, JoinFirst(parts, sep, i) + (if i == 0 then "" else sep), parts[i]);
  }

  /**
   * k >= 1 pieces joined are as long as those pieces together plus exactly
   * k - 1 separators.
   */
  lemma {:induction false} JoinLength(parts: seq<string>, sep: string, k: nat)
    requires 1 <= k <= |parts|
    ensures |JoinFirst(parts, sep, k)| == PrefixLength(parts, k) + (k - 1) * |sep|
  {
    if k > 1 {
      JoinLength(parts, sep, k - 1);
      assert (k - 1) * |sep| == (k - 2) * |sep| + |sep|;
    }
  }

  /** The joined text ends exactly where its last piece ends: nothing follows it. */
  lemma {:induction false} JoinEndsAtLastPiece(parts: seq<string>, sep: string, k: nat)
    requires 1 <= k <= |parts|
    ensures |JoinFirst(parts, sep, k)| == Offset(parts, sep, k - 1) + |parts[k - 1]|
  {
    if k > 1 {
      JoinEndsAtLastPiece(parts, sep, k - 1);
    }
  }

  /** The first k pieces joined begin with the first m pieces joined, for 1 <= m <= k. */
  lemma {:induction false} JoinSplit(parts: seq<string>, sep: string, m: nat, k: nat)
    requires 1 <= m <= k <= |parts|
    ensures JoinFirst(parts, sep, k) == JoinFirst(parts, sep, m) + JoinFrom(parts, sep, m, k)
    decreases k - m
  {
    if k > m {
      JoinSplit(parts, sep, m, k - 1);
      var head := JoinFirst(parts, sep, m);
      var rest := JoinFrom(parts, sep, m, k - 1);
      AppendAssoc(head, rest, sep);
      AppendAssoc(head, rest + sep, parts[k - 1]);
    }
  }

  /**
   * The text in front of piece i once i + 1 pieces are joined: nothing for
   * the first piece, otherwise the first i pieces joined and one separator.
   */
  lemma Lead(parts: seq<string>, sep: string, i: nat) returns (before: string)
    requires i < |parts|
    ensures |before| == Offset(parts, sep, i)
    ensures JoinFirst(parts, sep, i + 1) == before + parts[i]
  {
    if i == 0 {
      before := "";
    } else {
      before := JoinFirst(parts, sep, i) + sep;
      JoinEndsAtLastPiece(parts, sep, i);
    }
  }

  /**
   * The first k pieces joined, cut around piece i: the text in front of it
   * (as long as its offset), the piece itself, and the pieces after it.
   */
  lemma SplitAtPiece(parts: seq<string>, sep: string, k: nat, i: nat) returns (before: string)
    requires i < k <= |parts|
    ensures |before| == Offset(parts, sep, i)
    ensures JoinFirst(parts, sep, k) == before + parts[i] + JoinFrom(parts, sep, i + 1, k)
  {
    before := Lead(parts, sep, i);
    JoinSplit(parts, sep, i + 1, k);
  }

  /** Piece i of the first k pieces joined sits at Offset(parts, sep, i). */
  lemma JoinPiece(parts: seq<string>, sep: string, k: nat, i: nat)
    requires i < k <= |parts|
    ensures Offset(parts, sep, i) + |parts[i]| <= |JoinFirst(parts, sep, k)|
    ensures JoinFirst(parts, sep, k)[Offset(parts, sep, i)..Offset(parts, sep, i) + |parts[i]|] == parts[i]
  {
    var before := SplitAtPiece(parts, sep, k, i);
    Between(JoinFirst(parts, sep, k), before, parts[i], JoinFrom(parts, sep, i + 1, k), Offset(parts, sep, i));
  }

  /** Between piece i and piece i + 1 of the joined text lies exactly one separator. */
  lemma JoinGap(parts: seq<string>, sep: string, k: nat, i: nat)
    requires i + 1 < k <= |parts|
    ensures Offset(parts, sep, i + 1) <= |JoinFirst(parts, sep, k)|
    ensures JoinFirst(parts, sep, k)[Offset(parts, sep, i) + |parts[i]|..Offset(parts, sep, i + 1)] == sep
  {
    var front := JoinFirst(parts, sep, i + 1);
    var rest := JoinFrom(parts, sep, i + 2, k);
    JoinEndsAtLastPiece(parts, sep, i + 1);
    JoinSplit(parts, sep, i + 2, k);
    AppendAssoc(front + sep, parts[i + 1], rest);
    Between(JoinFirst(parts, sep, k), front, sep, parts[i + 1] + rest, Offset(parts, sep, i) + |parts[i]|);
  }

  /**
   * Framing keeps a piece in place: with begin written before the joined text
   * and end after it, piece i sits |begin| further on.
   */
  lemma FramedPiece(begin: string, parts: seq<string>, sep: string, end: string, i: nat)
    requires i < |parts|
    ensures |begin| + Offset(parts, sep, i) + |parts[i]| <= |begin + Join(parts, sep) + end|
    ensures (begin + Join(parts, sep) + end)[|begin| + Offset(parts, sep, i)..|begin| + Offset(parts, sep, i) + |parts[i]|]
            == parts[i]
  {
    var start := Offset(parts, sep, i);
    JoinPiece(parts, sep, |parts|, i);
    SliceOfMiddle(begin, Join(parts, sep), end, start, start + |parts[i]|);
  }

  /**
   * What follows piece i in the framed text: one separator if another piece
   * follows, and otherwise end and nothing else.
   */
  lemma FramedFollower(begin: string, parts: seq<string>, sep: string, end: string, i: nat)
    requires i < |parts|
    ensures i + 1 < |parts| ==>
              var after := |begin| + Offset(parts, sep, i) + |parts[i]|;
              && after + |sep| <= |begin + Join(parts, sep) + end|
              && (begin + Join(parts, sep) + end)[after..after + |sep|] == sep
    ensures i + 1 == |parts| ==>
              var after := |begin| + Offset(parts, sep, i) + |parts[i]|;
              && after == |begin + Join(parts, sep)|
              && (begin + Join(parts, sep) + end)[after..] == end
  {
    var j := Join(parts, sep);
    var stop := Offset(parts, sep, i) + |parts[i]|;
    if i + 1 < |parts| {
      JoinGap(parts, sep, |parts|, i);
      SliceOfMiddle(begin, j, end, stop, Offset(parts, sep, i + 1));
    } else {
      JoinEndsAtLastPiece(parts, sep, |parts|);
      SliceOfRight(begin + j, end, |begin| + stop, |begin + j + end|);
      assert end[0..|end|] == end;
    }
  }

  /**
   * Reading the first k >= 2 pieces joined from the front: the first piece,
   * a separator, and the join of the following k - 1 pieces.
   */
  lemma {:induction false} JoinFirstFromFront(parts: seq<string>, sep: string, k: nat)
    requires 2 <= k <= |parts|
    ensures JoinFirst(parts, sep, k) == parts[0] + sep + JoinFirst(parts[1..], sep, k - 1)
  {
    if k > 2 {
      JoinFirstFromFront(parts, sep, k - 1);
      var rest := JoinFirst(parts[1..], sep, k - 2);
      assert parts[1..][k - 2] == parts[k - 1];
      AppendAssoc(parts[0] + sep, rest, sep);
      AppendAssoc(parts[0] + sep, rest + sep, parts[k - 1]);
    }
  }

  /**
   * The forward reading of Join: the first piece, a separator, and the join
   * of the rest. Join grows from the back, so this is an independent
   * characterisation of the same text.
   */
  lemma JoinFromFront(parts: seq<string>, sep: string)
    requires |parts| >= 2
    ensures Join(parts, sep) == parts[0] + sep + Join(parts[1..], sep)
  {
    JoinFirstFromFront(parts, sep, |parts|);
  }
}
