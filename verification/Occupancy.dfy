/** Allocations as pieces of time: what they hold at an instant and over a span. */
module Occupancy {

  // An amount held from `left` until `right`, or for good.
  datatype Piece = Piece(amount: nat, left: real, right: real, forGood: bool)

  predicate Live(p: Piece, t: real) {
    p.left <= t && (p.forGood || t < p.right)
  }

  ghost predicate Proper(pieces: seq<Piece>) {
    forall i :: 0 <= i < |pieces| ==> 0.0 <= pieces[i].left <= pieces[i].right
  }

  // The pointwise meaning: everything live at t.
  function Held(pieces: seq<Piece>, t: real): nat {
    if pieces == [] then 0
    else
      var p := pieces[|pieces| - 1];
      Held(pieces[..|pieces| - 1], t) + if Live(p, t) then p.amount else 0
  }

  // What an event sweep adds to its running total at t.
  function Change(p: Piece, t: real): int {
    (if p.left == t then p.amount else 0) - (if !p.forGood && p.right == t then p.amount else 0)
  }

  function Delta(pieces: seq<Piece>, t: real): int {
    if pieces == [] then 0 else Delta(pieces[..|pieces| - 1], t) + Change(pieces[|pieces| - 1], t)
  }

  // How long p has been live by time t.
  function Age(p: Piece, t: real): real {
    if t < p.left then 0.0 else if p.forGood || t < p.right then t - p.left else p.right - p.left
  }

  // Byte-seconds.
  function Times(amount: nat, span: real): real {
    amount as real * span
  }

  // Amount times time, up to t.
  function Used(pieces: seq<Piece>, t: real): real {
    if pieces == [] then 0.0
    else
      var p := pieces[|pieces| - 1];
      Used(pieces[..|pieces| - 1], t) + Times(p.amount, Age(p, t))
  }

  // Nothing starts or stops strictly between a and b.
  ghost predicate Quiet(pieces: seq<Piece>, a: real, b: real) {
    forall i :: 0 <= i < |pieces| ==> QuietPiece(pieces[i], a, b)
  }

  predicate QuietPiece(p: Piece, a: real, b: real) {
    !(a < p.left < b) && (p.forGood || !(a < p.right < b))
  }

  lemma {:induction false} HeldStep(pieces: seq<Piece>, a: real, b: real)
    requires Proper(pieces) && a < b && Quiet(pieces, a, b)
    ensures Held(pieces, b) == Held(pieces, a) + Delta(pieces, b)
    decreases |pieces|
  {
    if pieces != [] {
      assert QuietPiece(pieces[|pieces| - 1], a, b);
      HeldStep(pieces[..|pieces| - 1], a, b);
    }
  }

  lemma {:induction false} HeldQuiet(pieces: seq<Piece>, a: real, t: real, b: real)
    requires a <= t < b && Quiet(pieces, a, b)
    ensures Held(pieces, t) == Held(pieces, a)
    decreases |pieces|
  {
    if pieces != [] {
      assert QuietPiece(pieces[|pieces| - 1], a, b);
      HeldQuiet(pieces[..|pieces| - 1], a, t, b);
    }
  }

  lemma {:induction false} UsedStep(pieces: seq<Piece>, a: real, b: real)
    requires Proper(pieces) && a < b && Quiet(pieces, a, b)
    ensures Used(pieces, b) == Used(pieces, a) + Times(Held(pieces, a), b - a)
    decreases |pieces|
  {
    if pieces != [] {
      var p, rest := pieces[|pieces| - 1], pieces[..|pieces| - 1];
      assert QuietPiece(p, a, b);
      hide Times, Age, Live;
      UsedStep(rest, a, b);
      UsedPiece(p, a, b);
      TimesAdds(Held(rest, a), if Live(p, a) then p.amount else 0, b - a);
    }
  }

  lemma UsedPiece(p: Piece, a: real, b: real)
    requires a < b && QuietPiece(p, a, b) && p.left <= p.right
    ensures Times(p.amount, Age(p, b)) == Times(p.amount, Age(p, a)) + Times(if Live(p, a) then p.amount else 0, b - a)
  {
    AgeStep(p, a, b);
    var amount, age, span := p.amount as real, Age(p, a), b - a;
    assert amount * (age + span) == amount * age + amount * span;
  }

  lemma TimesAdds(n: nat, m: nat, span: real)
    ensures Times(n + m, span) == Times(n, span) + Times(m, span)
  {
  }

  lemma AgeStep(p: Piece, a: real, b: real)
    requires a < b && QuietPiece(p, a, b) && p.left <= p.right
    ensures Age(p, b) == Age(p, a) + if Live(p, a) then b - a else 0.0
  {
  }

  lemma {:induction false} HeldAtZero(pieces: seq<Piece>)
    requires Proper(pieces)
    ensures Held(pieces, 0.0) == Delta(pieces, 0.0) && Used(pieces, 0.0) == 0.0
    decreases |pieces|
  {
    if pieces != [] {
      HeldAtZero(pieces[..|pieces| - 1]);
    }
  }

  lemma {:induction false} HeldConcat(a: seq<Piece>, b: seq<Piece>, t: real)
    ensures Held(a + b, t) == Held(a, t) + Held(b, t)
    ensures Delta(a + b, t) == Delta(a, t) + Delta(b, t)
    decreases |b|
  {
    if b == [] {
      assert a + b == a;
    } else {
      assert (a + b)[..|a + b| - 1] == a + b[..|b| - 1];
      HeldConcat(a, b[..|b| - 1], t);
    }
  }

  // Amount times lifetime, over all pieces.
  function Footprint(pieces: seq<Piece>): real {
    if pieces == [] then 0.0
    else
      var p := pieces[|pieces| - 1];
      Footprint(pieces[..|pieces| - 1]) + Times(p.amount, p.right - p.left)
  }

  // By the end of the window every piece has lived its lifetime.
  lemma {:induction false} UsedAtEnd(pieces: seq<Piece>, end: real)
    requires Proper(pieces)
    requires forall i :: 0 <= i < |pieces| ==> if pieces[i].forGood then pieces[i].right == end else pieces[i].right <= end
    ensures Used(pieces, end) == Footprint(pieces)
    decreases |pieces|
  {
    if pieces != [] {
      UsedAtEnd(pieces[..|pieces| - 1], end);
      assert Age(pieces[|pieces| - 1], end) == pieces[|pieces| - 1].right - pieces[|pieces| - 1].left;
    }
  }
}
