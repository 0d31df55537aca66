/**
  Hard line breaks of the text block: `text.split('\n')` and its inverse,
  joining pieces back together with '\n'.
 */
module Lines {

  const Newline: char := '\n'

  /** True when `t` contains no line break. */
  predicate NoNewline(t: string) {
    forall k :: 0 <= k < |t| ==> t[k] != Newline
  }

  /** Number of line breaks in `s`. */
  function CountNewlines(s: string): nat {
    if |s| == 0 then 0
    else (if s[0] == Newline then 1 else 0) + CountNewlines(s[1..])
  }

  /**
    The pieces of `s` between line breaks, in order, as JavaScript's
    `s.split('\n')`: the empty string yields one empty piece, and a break at
    either end yields an empty first or last piece.
   */
  function Split(s: string): (r: seq<string>)
    ensures |r| == CountNewlines(s) + 1
    ensures forall i :: 0 <= i < |r| ==> NoNewline(r[i])
  {
    if |s| == 0 then [""]
    else if s[0] == Newline then [""] + Split(s[1..])
    else
      var rest := Split(s[1..]);
      [[s[0]] + rest[0]] + rest[1..]
  }

  /** The pieces glued back together with a line break between neighbours. */
  function Join(pieces: seq<string>): string
    requires |pieces| >= 1
  {
    if |pieces| == 1 then pieces[0]
    else pieces[0] + [Newline] + Join(pieces[1..])
  }

  /** Prefixing a character to the first piece prefixes it to the joined text. */
  lemma {:induction false} JoinConsFirst(c: char, pieces: seq<string>)
    requires |pieces| >= 1
    ensures Join([[c] + pieces[0]] + pieces[1..]) == [c] + Join(pieces)
  {
    var ps := [[c] + pieces[0]] + pieces[1..];
    assert ps[1..] == pieces[1..];
    if |pieces| > 1 {
      assert Join(ps) == ps[0] + [Newline] + Join(pieces[1..]);
    }
  }

  /** Splitting and re-joining gives back the original text. */
  lemma {:induction false} JoinSplit(s: string)
    ensures Join(Split(s)) == s
  {
    if |s| == 0 {
    } else if s[0] == Newline {
      JoinSplit(s[1..]);
      var r := [""] + Split(s[1..]);
      assert r[1..] == Split(s[1..]);
      assert Join(r) == "" + [Newline] + Join(Split(s[1..]));
      assert s == [s[0]] + s[1..];
    } else {
      JoinSplit(s[1..]);
      JoinConsFirst(s[0], Split(s[1..]));
      assert s == [s[0]] + s[1..];
    }
  }

  /** A text without line breaks is a single piece. */
  lemma {:induction false} SplitSingle(t: string)
    requires NoNewline(t)
    ensures Split(t) == [t]
  {
    if |t| > 0 {
      SplitSingle(t[1..]);
      assert [t[0]] + t[1..] == t;
    }
  }

  /** A break-free prefix followed by a break becomes its own first piece. */
  lemma {:induction false} SplitAfterPiece(p: string, rest: string)
    requires NoNewline(p)
    ensures Split(p + [Newline] + rest) == [p] + Split(rest)
  {
    var s := p + [Newline] + rest;
    if |p| == 0 {
      assert s == [Newline] + rest;
      assert s[1..] == rest;
    } else {
      assert s[0] == p[0];
      assert s[1..] == p[1..] + [Newline] + rest;
      SplitAfterPiece(p[1..], rest);
      assert [p[0]] + p[1..] == p;
    }
  }

  /** Joining break-free pieces and splitting again gives back the pieces. */
  lemma {:induction false} SplitJoin(pieces: seq<string>)
    requires |pieces| >= 1
    requires forall i :: 0 <= i < |pieces| ==> NoNewline(pieces[i])
    ensures Split(Join(pieces)) == pieces
  {
    if |pieces| == 1 {
      SplitSingle(pieces[0]);
    } else {
      SplitJoin(pieces[1..]);
      SplitAfterPiece(pieces[0], Join(pieces[1..]));
      assert [pieces[0]] + pieces[1..] == pieces;
    }
  }
}
