/**
 * The fill pattern of the rating widget: a value from 1 to 10 shown as five
 * balls of two halves each, half positions 1 to 10 from left to right.
 * The markup and the colour gradient are not modelled.
 */
module Rating {

  /** The value clamped into `[1, 10]`. */
  function ClampRating(value: int): (v: int)
    ensures 1 <= v <= 10
    ensures 1 <= value <= 10 ==> v == value
    ensures value < 1 ==> v == 1
    ensures value > 10 ==> v == 10
  {
    if value < 1 then 1 else if value > 10 then 10 else value
  }

  /** One ball: whether its left half (odd position) and right half (even position) are filled. */
  datatype Ball = Ball(left: bool, right: bool)

  /** Ball `b` has its halves at positions `2b + 1` and `2b + 2`; a half is filled iff its position is at most `v`. */
  function BallAt(b: nat, v: int): Ball
  {
    Ball(2 * b + 1 <= v, 2 * b + 2 <= v)
  }

  /** `render_rating`: the five balls for a value, after clamping. */
  method RenderRating(value: int) returns (balls: seq<Ball>)
    ensures |balls| == 5
    ensures forall b | 0 <= b < 5 :: balls[b].left <==> 2 * b + 1 <= ClampRating(value)
    ensures forall b | 0 <= b < 5 :: balls[b].right <==> 2 * b + 2 <= ClampRating(value)
  {
    var v := value;
    if v < 1 {
      v := 1;
    }
    if v > 10 {
      v := 10;
    }
    balls := [];
    var ballNum := 0;
    while ballNum < 5
      invariant 0 <= ballNum <= 5
      invariant |balls| == ballNum
      invariant v == ClampRating(value)
      invariant forall b | 0 <= b < ballNum :: balls[b] == BallAt(b, v)
    {
      var leftPos := ballNum * 2 + 1;
      var rightPos := ballNum * 2 + 2;
      balls := balls + [Ball(leftPos <= v, rightPos <= v)];
      ballNum := ballNum + 1;
    }
  }

  /** The halves left to right: the half at position `p` is at index `p - 1`. */
  function Halves(balls: seq<Ball>): (hs: seq<bool>)
    ensures |hs| == 2 * |balls|
    ensures forall b | 0 <= b < |balls| :: hs[2 * b] == balls[b].left && hs[2 * b + 1] == balls[b].right
  {
    if balls == [] then []
    else [balls[0].left, balls[0].right] + Halves(balls[1..])
  }

  function CountFilled(hs: seq<bool>): nat
  {
    if hs == [] then 0 else (if hs[0] then 1 else 0) + CountFilled(hs[1..])
  }

  /** When exactly the first `n` halves are filled, `n` halves are filled. */
  lemma {:induction false} PrefixCount(hs: seq<bool>, n: nat)
    requires n <= |hs|
    requires forall i | 0 <= i < |hs| :: hs[i] <==> i < n
    ensures CountFilled(hs) == n
  {
    if hs != [] {
      var m := if n > 0 then n - 1 else 0;
      assert forall i | 0 <= i < |hs[1..]| :: hs[1..][i] == hs[i + 1];
      PrefixCount(hs[1..], m);
    }
  }

  /**
   * The filled halves form a prefix whose length is the clamped value:
   * value 1 fills half a ball, value 10 fills all five.
   */
  lemma FilledHalves(balls: seq<Ball>, value: int)
    requires |balls| == 5
    requires forall b | 0 <= b < 5 :: balls[b].left <==> 2 * b + 1 <= ClampRating(value)
    requires forall b | 0 <= b < 5 :: balls[b].right <==> 2 * b + 2 <= ClampRating(value)
    ensures |Halves(balls)| == 10
    ensures forall i | 0 <= i < 10 :: Halves(balls)[i] <==> i + 1 <= ClampRating(value)
    ensures CountFilled(Halves(balls)) == ClampRating(value)
  {
    var hs := Halves(balls);
    forall i | 0 <= i < 10
      ensures hs[i] <==> i < ClampRating(value)
    {
      var b := i / 2;
      assert 0 <= b < 5;
      if i % 2 == 0 {
        assert i == 2 * b;
        assert hs[2 * b] == balls[b].left;
      } else {
        assert i == 2 * b + 1;
        assert hs[2 * b + 1] == balls[b].right;
      }
    }
    PrefixCount(hs, ClampRating(value));
  }
}
