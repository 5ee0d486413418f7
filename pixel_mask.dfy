/**
 * The masked pixel of vw/Image/PixelMask.h: a child pixel of n channels
 * plus one validity channel of the same channel type, the elementwise
 * dispatch that propagates invalidity through per-channel operations, the
 * mean-channel reduction, and the per-pixel logic of the two views that
 * turn a plain image into a masked one (by a no-data sentinel) and back.
 *
 * The channel type is a type parameter T. What the source reads from the
 * channel-type traits is passed in as a ChannelRange: ChannelRange<T>::min(),
 * ChannelRange<T>::max() and the default value channel_type(). The source
 * tests valid() in boolean context, so a pixel counts as valid exactly when
 * its validity channel differs from channel_type().
 */
module PixelMask {
  import opened ImageView

  datatype ChannelRange<T> = ChannelRange(min: T, max: T, zero: T)

  /** PixelMask<ChildT>: the child pixel's channels and the validity channel. */
  datatype PixelMask<T> = PixelMask(child: seq<T>, valid: T)

  // ---------------------------------------------------------------------
  // Channel helpers
  // ---------------------------------------------------------------------

  /** A default-constructed child pixel: every channel is channel_type(). */
  function Zeros<T>(n: nat, r: ChannelRange<T>): (c: seq<T>)
    ensures |c| == n
    ensures forall i :: 0 <= i < n ==> c[i] == r.zero
  {
    seq(n, _ => r.zero)
  }

  /** Applies f to each channel. */
  function MapChannels<A, C>(a: seq<A>, f: A -> C): (c: seq<C>)
    ensures |c| == |a|
    ensures forall i :: 0 <= i < |a| ==> c[i] == f(a[i])
  {
    seq(|a|, i requires 0 <= i < |a| => f(a[i]))
  }

  /** Applies f to each pair of corresponding channels. */
  function ZipChannels<A, B, C>(a: seq<A>, b: seq<B>, f: (A, B) -> C): (c: seq<C>)
    requires |a| == |b|
    ensures |c| == |a|
    ensures forall i :: 0 <= i < |a| ==> c[i] == f(a[i], b[i])
  {
    seq(|a|, i requires 0 <= i < |a| => f(a[i], b[i]))
  }

  // ---------------------------------------------------------------------
  // The PixelMask value type
  // ---------------------------------------------------------------------

  /** valid() used as a condition. */
  predicate IsValid<T(==)>(p: PixelMask<T>, r: ChannelRange<T>) {
    p.valid != r.zero
  }

  /** is_transparent(pixel) is !pixel.valid(). */
  predicate IsTransparent<T(==)>(p: PixelMask<T>, r: ChannelRange<T>)
    ensures IsTransparent(p, r) <==> p.valid == r.zero
  {
    !IsValid(p, r)
  }

  /** PixelMask(): a zero child and the validity channel at the channel minimum. */
  function Default<T>(n: nat, r: ChannelRange<T>): (d: PixelMask<T>)
    ensures |d.child| == n && d.valid == r.min
    ensures forall i :: 0 <= i < n ==> d.child[i] == r.zero
  {
    PixelMask(Zeros(n, r), r.min)
  }

  /** A default pixel reads as invalid exactly when the channel minimum is channel_type(). */
  lemma DefaultIsInvalid<T>(n: nat, r: ChannelRange<T>)
    ensures |Default(n, r).child| == n
    ensures forall i :: 0 <= i < n ==> Default(n, r).child[i] == r.zero
    ensures Default(n, r).valid == r.min
    ensures IsTransparent(Default(n, r), r) <==> r.min == r.zero
  {
  }

  /** PixelMask(pix): construction from a child value (or a raw one-channel value) is valid. */
  function FromChild<T>(c: seq<T>, r: ChannelRange<T>): (p: PixelMask<T>)
    ensures p.child == c && p.valid == r.max
  {
    PixelMask(c, r.max)
  }

  /** PixelMask(a0, a1): for a child with two channels. */
  function FromChannels2<T>(a0: T, a1: T, r: ChannelRange<T>): (p: PixelMask<T>)
    ensures |p.child| == 2 && p.child[0] == a0 && p.child[1] == a1 && p.valid == r.max
  {
    PixelMask([a0, a1], r.max)
  }

  /** PixelMask(a0, a1, a2): for a child with three channels. */
  function FromChannels3<T>(a0: T, a1: T, a2: T, r: ChannelRange<T>): (p: PixelMask<T>)
    ensures |p.child| == 3 && p.child[0] == a0 && p.child[1] == a1 && p.child[2] == a2 && p.valid == r.max
  {
    PixelMask([a0, a1, a2], r.max)
  }

  /** PixelMask(a0, a1, a2, a3): for a child with four channels. */
  function FromChannels4<T>(a0: T, a1: T, a2: T, a3: T, r: ChannelRange<T>): (p: PixelMask<T>)
    ensures |p.child| == 4 && p.child[0] == a0 && p.child[1] == a1 && p.child[2] == a2 && p.child[3] == a3
    ensures p.valid == r.max
  {
    PixelMask([a0, a1, a2, a3], r.max)
  }

  /**
   * Every constructor that takes channel values keeps them as the child and
   * sets the validity channel to the channel maximum; the result reads as
   * valid exactly when that maximum is not channel_type().
   */
  lemma ConstructedPixelsAreValid<T>(c: seq<T>, a0: T, a1: T, a2: T, a3: T, r: ChannelRange<T>)
    ensures FromChild(c, r).child == c && FromChild(c, r).valid == r.max
    ensures IsValid(FromChild(c, r), r) <==> r.max != r.zero
    ensures FromChannels2(a0, a1, r) == FromChild([a0, a1], r)
    ensures FromChannels3(a0, a1, a2, r) == FromChild([a0, a1, a2], r)
    ensures FromChannels4(a0, a1, a2, a3, r) == FromChild([a0, a1, a2, a3], r)
  {
  }

  /** validate(): the validity channel becomes the channel maximum. */
  function Validate<T>(p: PixelMask<T>, r: ChannelRange<T>): (q: PixelMask<T>)
    ensures q.child == p.child && q.valid == r.max
  {
    p.(valid := r.max)
  }

  /** invalidate(): the validity channel becomes the channel minimum. */
  function Invalidate<T>(p: PixelMask<T>, r: ChannelRange<T>): (q: PixelMask<T>)
    ensures q.child == p.child && q.valid == r.min
  {
    p.(valid := r.min)
  }

  /** invalidate() and validate() change only the validity channel and undo each other. */
  lemma ValidateInvalidateRoundTrip<T>(p: PixelMask<T>, r: ChannelRange<T>)
    requires p.valid == r.max
    ensures Validate(Invalidate(p, r), r) == p
    ensures r.min == r.zero ==> IsTransparent(Invalidate(p, r), r)
  {
  }

  /** operator[](i): channel i of the child, or the validity channel when i == n. */
  function Channel<T>(p: PixelMask<T>, i: int): (v: T)
    requires 0 <= i <= |p.child|
    ensures i < |p.child| ==> v == p.child[i]
    ensures i == |p.child| ==> v == p.valid
  {
    if i == |p.child| then p.valid else p.child[i]
  }

  /** Assignment through the reference that operator[](i) returns. */
  function SetChannel<T>(p: PixelMask<T>, i: int, v: T): (q: PixelMask<T>)
    requires 0 <= i <= |p.child|
    ensures |q.child| == |p.child|
    ensures Channel(q, i) == v
    ensures forall j :: 0 <= j <= |p.child| && j != i ==> Channel(q, j) == Channel(p, j)
  {
    if i == |p.child| then p.(valid := v) else p.(child := p.child[i := v])
  }

  /** Index n addresses the validity channel, every smaller index the child. */
  lemma ChannelIndexing<T>(p: PixelMask<T>)
    ensures Channel(p, |p.child|) == p.valid
    ensures forall i :: 0 <= i < |p.child| ==> Channel(p, i) == p.child[i]
  {
  }

  /** operator channel_type(): only for a child of one channel. */
  function ToScalar<T>(p: PixelMask<T>): (v: T)
    requires |p.child| == 1
    ensures v == Channel(p, 0)
  {
    p.child[0]
  }

  /** Converting a one-channel pixel to its scalar gives back the value it was made from. */
  lemma ToScalarOfFromChild<T>(x: T, r: ChannelRange<T>)
    ensures ToScalar(FromChild([x], r)) == x
  {
  }

  /**
   * The converting constructor PixelMask<ChildT>(PixelMask<OtherT>). The
   * child's own conversion is taken to act channel by channel (conv). An
   * invalid source gives a zero child and a validity channel of
   * channel_type(), not ChannelRange<T>::min().
   */
  function Convert<A(==), B>(other: PixelMask<A>, ra: ChannelRange<A>, rb: ChannelRange<B>, conv: A -> B): (p: PixelMask<B>)
    ensures |p.child| == |other.child|
    ensures IsValid(other, ra) ==> p.valid == rb.max && forall i :: 0 <= i < |p.child| ==> p.child[i] == conv(other.child[i])
    ensures !IsValid(other, ra) ==> p.valid == rb.zero && forall i :: 0 <= i < |p.child| ==> p.child[i] == rb.zero
  {
    if IsValid(other, ra) then
      PixelMask(MapChannels(other.child, conv), rb.max)
    else
      PixelMask(Zeros(|other.child|, rb), rb.zero)
  }

  /** Conversion keeps validity, and what it gives for an invalid source. */
  lemma ConvertPreservesValidity<A, B>(other: PixelMask<A>, ra: ChannelRange<A>, rb: ChannelRange<B>, conv: A -> B)
    requires rb.max != rb.zero
    ensures IsValid(Convert(other, ra, rb, conv), rb) <==> IsValid(other, ra)
    ensures IsValid(other, ra) ==> Convert(other, ra, rb, conv).child == MapChannels(other.child, conv)
    ensures !IsValid(other, ra) ==> (Convert(other, ra, rb, conv) == Default(|other.child|, rb) <==> rb.min == rb.zero)
  {
  }

  // ---------------------------------------------------------------------
  // Mean channel value
  // ---------------------------------------------------------------------

  /** The sum of the channels, each converted to double. */
  function SumChannels<T>(c: seq<T>, toReal: T -> real): real {
    if c == [] then 0.0 else SumChannels(c[..|c| - 1], toReal) + toReal(c[|c| - 1])
  }

  /** What mean_channel_value computes: the first n - 1 child channels summed, divided by n. */
  function MeanAsWritten<T(==)>(arg: PixelMask<T>, r: ChannelRange<T>, toReal: T -> real): real
    requires |arg.child| >= 1
  {
    if IsValid(arg, r) then SumChannels(arg.child[..|arg.child| - 1], toReal) / (|arg.child| as real) else 0.0
  }

  /** mean_channel_value: the accumulation loop over the channels of the masked pixel. */
  method MeanChannelValue<T(==)>(arg: PixelMask<T>, r: ChannelRange<T>, toReal: T -> real) returns (mean: real)
    requires |arg.child| >= 1
    ensures mean == MeanAsWritten(arg, r, toReal)
  {
    if IsValid(arg, r) {
      var numChannels := |arg.child|;
      var accum := 0.0;
      for i := 0 to numChannels - 1
        invariant accum == SumChannels(arg.child[..i], toReal)
      {
        accum := accum + toReal(Channel(arg, i));
        assert arg.child[..i + 1][..i] == arg.child[..i];
      }
      mean := accum / (numChannels as real);
    } else {
      mean := 0.0;
    }
  }

  /** The mean that the function's name and comment promise: all n child channels, divided by n. */
  function MeanIntended<T(==)>(arg: PixelMask<T>, r: ChannelRange<T>, toReal: T -> real): real
    requires |arg.child| >= 1
  {
    if IsValid(arg, r) then SumChannels(arg.child, toReal) / (|arg.child| as real) else 0.0
  }

  lemma {:induction false} SumOfUniform<T>(c: seq<T>, x: T, toReal: T -> real)
    requires forall i :: 0 <= i < |c| ==> c[i] == x
    ensures SumChannels(c, toReal) == (|c| as real) * toReal(x)
  {
    if c != [] {
      SumOfUniform(c[..|c| - 1], x, toReal);
    }
  }

  /** The corrected mean of a valid pixel whose channels are all x is x; an invalid pixel gives 0. */
  lemma MeanIntendedOfUniform<T>(arg: PixelMask<T>, r: ChannelRange<T>, x: T, toReal: T -> real)
    requires |arg.child| >= 1
    requires forall i :: 0 <= i < |arg.child| ==> arg.child[i] == x
    ensures MeanIntended(arg, r, toReal) == if IsValid(arg, r) then toReal(x) else 0.0
  {
    SumOfUniform(arg.child, x, toReal);
  }

  /** The mean as written misses exactly the last child channel's share. */
  lemma MeanAsWrittenMissesLastChannel<T>(arg: PixelMask<T>, r: ChannelRange<T>, toReal: T -> real)
    requires |arg.child| >= 1
    ensures MeanAsWritten(arg, r, toReal) ==
      if IsValid(arg, r) then MeanIntended(arg, r, toReal) - toReal(arg.child[|arg.child| - 1]) / (|arg.child| as real)
      else 0.0
    ensures |arg.child| == 1 ==> MeanAsWritten(arg, r, toReal) == 0.0
  {
    var n := |arg.child|;
    assert SumChannels(arg.child, toReal) == SumChannels(arg.child[..n - 1], toReal) + toReal(arg.child[n - 1]);
    assert arg.child[..0] == [];
  }

  /** A valid three-channel pixel (2, 4, 6): the mean as written is 2, the intended mean is 4. */
  lemma MeanCounterexample(toReal: real -> real)
    requires forall x :: toReal(x) == x
    ensures MeanAsWritten(PixelMask([2.0, 4.0, 6.0], 1.0), ChannelRange(0.0, 1.0, 0.0), toReal) == 2.0
    ensures MeanIntended(PixelMask([2.0, 4.0, 6.0], 1.0), ChannelRange(0.0, 1.0, 0.0), toReal) == 4.0
  {
    var c := [2.0, 4.0, 6.0];
    assert SumChannels([2.0], toReal) == 2.0 by {
      assert [2.0][..0] == [];
    }
    assert SumChannels([2.0, 4.0], toReal) == 6.0 by {
      assert [2.0, 4.0][..1] == [2.0];
    }
    assert c[..2] == [2.0, 4.0];
  }

  // ---------------------------------------------------------------------
  // Binary elementwise dispatch, value form
  // ---------------------------------------------------------------------

  /** What compound_apply(func, arg1, arg2) promises. */
  function BinaryResult<A(==), B(==), C>(f: (A, B) -> C, arg1: PixelMask<A>, arg2: PixelMask<B>,
                                         ra: ChannelRange<A>, rb: ChannelRange<B>, rc: ChannelRange<C>): PixelMask<C>
    requires |arg1.child| == |arg2.child|
  {
    if IsValid(arg1, ra) && IsValid(arg2, rb) then
      PixelMask(ZipChannels(arg1.child, arg2.child, f), rc.max)
    else
      Default(|arg1.child|, rc)
  }

  /**
   * The general Helper of PixelMaskBinaryCompoundFunctor: start from a
   * default result, assign each child channel, then validate.
   */
  method BinaryCompoundApply<A(==), B(==), C>(f: (A, B) -> C, arg1: PixelMask<A>, arg2: PixelMask<B>,
                                              ra: ChannelRange<A>, rb: ChannelRange<B>, rc: ChannelRange<C>)
    returns (result: PixelMask<C>)
    requires |arg1.child| == |arg2.child|
    ensures result == BinaryResult(f, arg1, arg2, ra, rb, rc)
  {
    var n := |arg1.child|;
    if IsValid(arg1, ra) && IsValid(arg2, rb) {
      result := Default(n, rc);
      for i := 0 to n
        invariant |result.child| == n
        invariant forall k :: 0 <= k < i ==> result.child[k] == f(arg1.child[k], arg2.child[k])
      {
        result := SetChannel(result, i, f(Channel(arg1, i), Channel(arg2, i)));
      }
      result := Validate(result, rc);
      assert result.child == ZipChannels(arg1.child, arg2.child, f);
    } else {
      result := Default(n, rc);
    }
  }

  /** The Helper specialisations for children of one to four channels. */
  function BinaryUnrolled<A(==), B(==), C>(f: (A, B) -> C, arg1: PixelMask<A>, arg2: PixelMask<B>,
                                           ra: ChannelRange<A>, rb: ChannelRange<B>, rc: ChannelRange<C>): PixelMask<C>
    requires |arg1.child| == |arg2.child| && 1 <= |arg1.child| <= 4
  {
    var n := |arg1.child|;
    if !(IsValid(arg1, ra) && IsValid(arg2, rb)) then Default(n, rc)
    else if n == 1 then
      FromChild([f(Channel(arg1, 0), Channel(arg2, 0))], rc)
    else if n == 2 then
      FromChannels2(f(Channel(arg1, 0), Channel(arg2, 0)), f(Channel(arg1, 1), Channel(arg2, 1)), rc)
    else if n == 3 then
      FromChannels3(f(Channel(arg1, 0), Channel(arg2, 0)), f(Channel(arg1, 1), Channel(arg2, 1)),
                    f(Channel(arg1, 2), Channel(arg2, 2)), rc)
    else
      FromChannels4(f(Channel(arg1, 0), Channel(arg2, 0)), f(Channel(arg1, 1), Channel(arg2, 1)),
                    f(Channel(arg1, 2), Channel(arg2, 2)), f(Channel(arg1, 3), Channel(arg2, 3)), rc)
  }

  /** The specialisations compute what the general loop computes. */
  lemma BinaryUnrolledAgrees<A, B, C>(f: (A, B) -> C, arg1: PixelMask<A>, arg2: PixelMask<B>,
                                               ra: ChannelRange<A>, rb: ChannelRange<B>, rc: ChannelRange<C>)
    requires |arg1.child| == |arg2.child| && 1 <= |arg1.child| <= 4
    ensures BinaryUnrolled(f, arg1, arg2, ra, rb, rc) == BinaryResult(f, arg1, arg2, ra, rb, rc)
  {
    var n := |arg1.child|;
    if IsValid(arg1, ra) && IsValid(arg2, rb) {
      var z := ZipChannels(arg1.child, arg2.child, f);
      if n == 1 {
        assert z == [z[0]];
      } else if n == 2 {
        assert z == [z[0], z[1]];
      } else if n == 3 {
        assert z == [z[0], z[1], z[2]];
      } else {
        assert z == [z[0], z[1], z[2], z[3]];
      }
    }
  }

  /**
   * Binary dispatch: valid operands give a valid result holding f of the
   * corresponding channels; any invalid operand gives the default pixel,
   * which keeps nothing of either operand's child.
   */
  lemma BinaryValidity<A, B, C>(f: (A, B) -> C, arg1: PixelMask<A>, arg2: PixelMask<B>,
                                            ra: ChannelRange<A>, rb: ChannelRange<B>, rc: ChannelRange<C>)
    requires |arg1.child| == |arg2.child|
    requires rc.min == rc.zero && rc.max != rc.zero
    ensures IsValid(BinaryResult(f, arg1, arg2, ra, rb, rc), rc) <==> IsValid(arg1, ra) && IsValid(arg2, rb)
    ensures |BinaryResult(f, arg1, arg2, ra, rb, rc).child| == |arg1.child|
    ensures IsValid(arg1, ra) && IsValid(arg2, rb) ==>
      forall i :: 0 <= i < |arg1.child| ==>
        Channel(BinaryResult(f, arg1, arg2, ra, rb, rc), i) == f(Channel(arg1, i), Channel(arg2, i))
    ensures !(IsValid(arg1, ra) && IsValid(arg2, rb)) ==>
      forall i :: 0 <= i < |arg1.child| ==> BinaryResult(f, arg1, arg2, ra, rb, rc).child[i] == rc.zero
  {
  }

  // ---------------------------------------------------------------------
  // Binary elementwise dispatch, in-place form
  // ---------------------------------------------------------------------

  /** What compound_apply_in_place(func, arg1, arg2) leaves in arg1 (and returns). */
  function BinaryInPlaceResult<A(==), B(==)>(f: (A, B) -> A, arg1: PixelMask<A>, arg2: PixelMask<B>,
                                             ra: ChannelRange<A>, rb: ChannelRange<B>): PixelMask<A>
    requires |arg1.child| == |arg2.child|
  {
    if IsValid(arg1, ra) && IsValid(arg2, rb) then
      PixelMask(ZipChannels(arg1.child, arg2.child, f), arg1.valid)
    else
      Default(|arg1.child|, ra)
  }

  /**
   * The general Helper of PixelMaskBinaryInPlaceCompoundFunctor. The C++
   * functor updates arg1[i] through a reference; here f returns the new
   * channel value and the method returns the new arg1.
   */
  method BinaryCompoundApplyInPlace<A(==), B(==)>(f: (A, B) -> A, arg1: PixelMask<A>, arg2: PixelMask<B>,
                                                  ra: ChannelRange<A>, rb: ChannelRange<B>)
    returns (updated: PixelMask<A>)
    requires |arg1.child| == |arg2.child|
    ensures updated == BinaryInPlaceResult(f, arg1, arg2, ra, rb)
  {
    updated := arg1;
    if IsValid(arg1, ra) && IsValid(arg2, rb) {
      for i := 0 to |arg1.child|
        invariant |updated.child| == |arg1.child| && updated.valid == arg1.valid
        invariant forall k :: 0 <= k < i ==> updated.child[k] == f(arg1.child[k], arg2.child[k])
        invariant forall k :: i <= k < |arg1.child| ==> updated.child[k] == arg1.child[k]
      {
        updated := SetChannel(updated, i, f(Channel(updated, i), Channel(arg2, i)));
      }
      assert updated.child == ZipChannels(arg1.child, arg2.child, f);
    } else {
      updated := Default(|arg1.child|, ra);
    }
  }

  /** The in-place specialisations for one to four channels: the loop unrolled. */
  function BinaryInPlaceUnrolled<A(==), B(==)>(f: (A, B) -> A, arg1: PixelMask<A>, arg2: PixelMask<B>,
                                               ra: ChannelRange<A>, rb: ChannelRange<B>): PixelMask<A>
    requires |arg1.child| == |arg2.child| && 1 <= |arg1.child| <= 4
  {
    var n := |arg1.child|;
    if !(IsValid(arg1, ra) && IsValid(arg2, rb)) then Default(n, ra)
    else
      var p0 := SetChannel(arg1, 0, f(Channel(arg1, 0), Channel(arg2, 0)));
      if n == 1 then p0 else
      var p1 := SetChannel(p0, 1, f(Channel(p0, 1), Channel(arg2, 1)));
      if n == 2 then p1 else
      var p2 := SetChannel(p1, 2, f(Channel(p1, 2), Channel(arg2, 2)));
      if n == 3 then p2 else
      SetChannel(p2, 3, f(Channel(p2, 3), Channel(arg2, 3)))
  }

  lemma BinaryInPlaceUnrolledAgrees<A, B>(f: (A, B) -> A, arg1: PixelMask<A>, arg2: PixelMask<B>,
                                                   ra: ChannelRange<A>, rb: ChannelRange<B>)
    requires |arg1.child| == |arg2.child| && 1 <= |arg1.child| <= 4
    ensures BinaryInPlaceUnrolled(f, arg1, arg2, ra, rb) == BinaryInPlaceResult(f, arg1, arg2, ra, rb)
  {
    if IsValid(arg1, ra) && IsValid(arg2, rb) {
      var u := BinaryInPlaceUnrolled(f, arg1, arg2, ra, rb);
      assert u.child == ZipChannels(arg1.child, arg2.child, f);
    }
  }

  /**
   * The in-place form agrees with the value form whenever a valid first
   * operand carries the channel maximum; it keeps arg1's validity channel
   * as it was rather than re-validating it.
   */
  lemma BinaryInPlaceMatchesValueForm<A, B>(f: (A, B) -> A, arg1: PixelMask<A>, arg2: PixelMask<B>,
                                                     ra: ChannelRange<A>, rb: ChannelRange<B>)
    requires |arg1.child| == |arg2.child|
    ensures IsValid(arg1, ra) && IsValid(arg2, rb) ==>
      BinaryInPlaceResult(f, arg1, arg2, ra, rb).valid == arg1.valid
    ensures (IsValid(arg1, ra) && IsValid(arg2, rb) ==> arg1.valid == ra.max) ==>
      BinaryInPlaceResult(f, arg1, arg2, ra, rb) == BinaryResult(f, arg1, arg2, ra, rb, ra)
  {
  }

  // ---------------------------------------------------------------------
  // Unary elementwise dispatch, value form
  // ---------------------------------------------------------------------

  /** What compound_apply(func, arg) promises. */
  function UnaryResult<A(==), C>(f: A -> C, arg: PixelMask<A>, ra: ChannelRange<A>, rc: ChannelRange<C>): PixelMask<C> {
    if IsValid(arg, ra) then PixelMask(MapChannels(arg.child, f), rc.max) else Default(|arg.child|, rc)
  }

  /** The general Helper of PixelMaskUnaryCompoundFunctor. */
  method UnaryCompoundApply<A(==), C>(f: A -> C, arg: PixelMask<A>, ra: ChannelRange<A>, rc: ChannelRange<C>)
    returns (result: PixelMask<C>)
    ensures result == UnaryResult(f, arg, ra, rc)
  {
    var n := |arg.child|;
    if IsValid(arg, ra) {
      result := Default(n, rc);
      for i := 0 to n
        invariant |result.child| == n
        invariant forall k :: 0 <= k < i ==> result.child[k] == f(arg.child[k])
      {
        result := SetChannel(result, i, f(Channel(arg, i)));
      }
      result := Validate(result, rc);
      assert result.child == MapChannels(arg.child, f);
    } else {
      result := Default(n, rc);
    }
  }

  /** The unary Helper specialisations for children of one to four channels. */
  function UnaryUnrolled<A(==), C>(f: A -> C, arg: PixelMask<A>, ra: ChannelRange<A>, rc: ChannelRange<C>): PixelMask<C>
    requires 1 <= |arg.child| <= 4
  {
    var n := |arg.child|;
    if !IsValid(arg, ra) then Default(n, rc)
    else if n == 1 then FromChild([f(Channel(arg, 0))], rc)
    else if n == 2 then FromChannels2(f(Channel(arg, 0)), f(Channel(arg, 1)), rc)
    else if n == 3 then FromChannels3(f(Channel(arg, 0)), f(Channel(arg, 1)), f(Channel(arg, 2)), rc)
    else FromChannels4(f(Channel(arg, 0)), f(Channel(arg, 1)), f(Channel(arg, 2)), f(Channel(arg, 3)), rc)
  }

  lemma UnaryUnrolledAgrees<A, C>(f: A -> C, arg: PixelMask<A>, ra: ChannelRange<A>, rc: ChannelRange<C>)
    requires 1 <= |arg.child| <= 4
    ensures UnaryUnrolled(f, arg, ra, rc) == UnaryResult(f, arg, ra, rc)
  {
    var n := |arg.child|;
    if IsValid(arg, ra) {
      var m := MapChannels(arg.child, f);
      if n == 1 {
        assert m == [m[0]];
      } else if n == 2 {
        assert m == [m[0], m[1]];
      } else if n == 3 {
        assert m == [m[0], m[1], m[2]];
      } else {
        assert m == [m[0], m[1], m[2], m[3]];
      }
    }
  }

  /** Unary dispatch keeps validity and applies f channel by channel; an invalid operand gives the default pixel. */
  lemma UnaryValidity<A, C>(f: A -> C, arg: PixelMask<A>, ra: ChannelRange<A>, rc: ChannelRange<C>)
    requires rc.min == rc.zero && rc.max != rc.zero
    ensures IsValid(UnaryResult(f, arg, ra, rc), rc) <==> IsValid(arg, ra)
    ensures |UnaryResult(f, arg, ra, rc).child| == |arg.child|
    ensures IsValid(arg, ra) ==>
      forall i :: 0 <= i < |arg.child| ==> Channel(UnaryResult(f, arg, ra, rc), i) == f(Channel(arg, i))
    ensures !IsValid(arg, ra) ==> UnaryResult(f, arg, ra, rc) == Default(|arg.child|, rc)
  {
  }

  // ---------------------------------------------------------------------
  // Unary elementwise dispatch, in-place form
  // ---------------------------------------------------------------------

  /** What compound_apply_in_place(func, arg) leaves in arg (and returns). */
  function UnaryInPlaceResult<A(==)>(f: A -> A, arg: PixelMask<A>, ra: ChannelRange<A>): PixelMask<A> {
    if IsValid(arg, ra) then PixelMask(MapChannels(arg.child, f), arg.valid) else Default(|arg.child|, ra)
  }

  /** The general Helper of PixelMaskUnaryInPlaceCompoundFunctor. */
  method UnaryCompoundApplyInPlace<A(==)>(f: A -> A, arg: PixelMask<A>, ra: ChannelRange<A>) returns (updated: PixelMask<A>)
    ensures updated == UnaryInPlaceResult(f, arg, ra)
  {
    updated := arg;
    if IsValid(arg, ra) {
      for i := 0 to |arg.child|
        invariant |updated.child| == |arg.child| && updated.valid == arg.valid
        invariant forall k :: 0 <= k < i ==> updated.child[k] == f(arg.child[k])
        invariant forall k :: i <= k < |arg.child| ==> updated.child[k] == arg.child[k]
      {
        updated := SetChannel(updated, i, f(Channel(updated, i)));
      }
      assert updated.child == MapChannels(arg.child, f);
    } else {
      updated := Default(|arg.child|, ra);
    }
  }

  /** The unary in-place specialisations for one to four channels. */
  function UnaryInPlaceUnrolled<A(==)>(f: A -> A, arg: PixelMask<A>, ra: ChannelRange<A>): PixelMask<A>
    requires 1 <= |arg.child| <= 4
  {
    var n := |arg.child|;
    if !IsValid(arg, ra) then Default(n, ra)
    else
      var p0 := SetChannel(arg, 0, f(Channel(arg, 0)));
      if n == 1 then p0 else
      var p1 := SetChannel(p0, 1, f(Channel(p0, 1)));
      if n == 2 then p1 else
      var p2 := SetChannel(p1, 2, f(Channel(p1, 2)));
      if n == 3 then p2 else
      SetChannel(p2, 3, f(Channel(p2, 3)))
  }

  lemma UnaryInPlaceUnrolledAgrees<A>(f: A -> A, arg: PixelMask<A>, ra: ChannelRange<A>)
    requires 1 <= |arg.child| <= 4
    ensures UnaryInPlaceUnrolled(f, arg, ra) == UnaryInPlaceResult(f, arg, ra)
  {
    if IsValid(arg, ra) {
      var u := UnaryInPlaceUnrolled(f, arg, ra);
      assert u.child == MapChannels(arg.child, f);
    }
  }

  /** The unary in-place form agrees with the value form when a valid operand carries the channel maximum. */
  lemma UnaryInPlaceMatchesValueForm<A>(f: A -> A, arg: PixelMask<A>, ra: ChannelRange<A>)
    ensures IsValid(arg, ra) ==> UnaryInPlaceResult(f, arg, ra).valid == arg.valid
    ensures (IsValid(arg, ra) ==> arg.valid == ra.max) ==> UnaryInPlaceResult(f, arg, ra) == UnaryResult(f, arg, ra, ra)
  {
  }

  // ---------------------------------------------------------------------
  // CreatePixelMaskView and create_mask
  // ---------------------------------------------------------------------

  /**
   * CreatePixelMaskView::operator(): a source pixel equal to the no-data
   * value (when one is in use) is wrapped and then invalidated, so its
   * child is the sentinel itself; every other pixel is wrapped as valid.
   */
  function MaskPixel<T(==)>(src: seq<T>, nodataValue: seq<T>, useNodataValue: bool, r: ChannelRange<T>): (p: PixelMask<T>)
    ensures p.child == src
    ensures p.valid == if useNodataValue && src == nodataValue then r.min else r.max
  {
    if useNodataValue && src == nodataValue then Invalidate(FromChild(src, r), r) else FromChild(src, r)
  }

  /** The view of masked pixels that a CreatePixelMaskView presents. */
  function MaskedView<T(==)>(view: View<seq<T>>, nodataValue: seq<T>, useNodataValue: bool, r: ChannelRange<T>): View<PixelMask<T>> {
    View(view.cols, view.rows, view.planes, (col, row, plane) => MaskPixel(view.pixel(col, row, plane), nodataValue, useNodataValue, r))
  }

  /** Masking keeps the source pixel as the child; it is invalid exactly when it equals the sentinel in use. */
  lemma MaskPixelSpec<T>(src: seq<T>, nodataValue: seq<T>, useNodataValue: bool, r: ChannelRange<T>)
    requires r.min == r.zero && r.max != r.zero
    ensures MaskPixel(src, nodataValue, useNodataValue, r).child == src
    ensures IsTransparent(MaskPixel(src, nodataValue, useNodataValue, r), r) <==> useNodataValue && src == nodataValue
    ensures !useNodataValue ==> MaskPixel(src, nodataValue, useNodataValue, r) == FromChild(src, r)
  {
  }

  class CreatePixelMaskView<T(==)> {
    const view: View<seq<T>>
    const range: ChannelRange<T>
    var nodataValue: seq<T>
    var useNodataValue: bool

    /**
     * The constructor takes a no-data value but does not store it: the
     * sentinel stays default-constructed and unused.
     */
    constructor (view: View<seq<T>>, nodataValue: seq<T>, range: ChannelRange<T>)
      ensures this.view == view && this.range == range
      ensures !useNodataValue && this.nodataValue == Zeros(|nodataValue|, range)
    {
      this.view := view;
      this.range := range;
      this.nodataValue := Zeros(|nodataValue|, range);
      this.useNodataValue := false;
    }

    method SetNodataValue(value: seq<T>)
      modifies this
      ensures nodataValue == value && useNodataValue
    {
      nodataValue := value;
      useNodataValue := true;
    }

    function Cols(): int { view.cols }

    function Rows(): int { view.rows }

    function Planes(): int { view.planes }

    /** operator()(col, row, plane). */
    function At(col: int, row: int, plane: int): (px: PixelMask<T>)
      reads this
      ensures px.child == view.pixel(col, row, plane)
      ensures px.valid == if useNodataValue && view.pixel(col, row, plane) == nodataValue then range.min else range.max
    {
      MaskPixel(view.pixel(col, row, plane), nodataValue, useNodataValue, range)
    }

    /** The view this object presents, with its current sentinel. */
    function AsView(): (v: View<PixelMask<T>>)
      reads this
      ensures v == MaskedView(view, nodataValue, useNodataValue, range)
      ensures v.cols == Cols() && v.rows == Rows() && v.planes == Planes()
    {
      MaskedView(view, nodataValue, useNodataValue, range)
    }
  }

  /** create_mask(view, value): a CreatePixelMaskView with the sentinel set. */
  method CreateMask<T(==)>(view: View<seq<T>>, value: seq<T>, range: ChannelRange<T>) returns (pm: CreatePixelMaskView<T>)
    ensures fresh(pm)
    ensures pm.view == view && pm.range == range
    ensures pm.useNodataValue && pm.nodataValue == value
  {
    pm := new CreatePixelMaskView(view, value, range);
    pm.SetNodataValue(value);
  }

  // ---------------------------------------------------------------------
  // ApplyPixelMaskView and apply_mask
  // ---------------------------------------------------------------------

  datatype ApplyPixelMaskView<T> = ApplyPixelMaskView(view: View<PixelMask<T>>, range: ChannelRange<T>, replacementValue: seq<T>)

  /**
   * The ApplyPixelMaskView constructor as written: the replacement argument
   * is not stored, and the member stays a default-constructed child.
   */
  function MakeApplyPixelMaskView<T>(view: View<PixelMask<T>>, replacementValue: seq<T>, range: ChannelRange<T>): (v: ApplyPixelMaskView<T>)
    ensures v.view == view && v.range == range
    ensures |v.replacementValue| == |replacementValue|
    ensures forall i :: 0 <= i < |replacementValue| ==> v.replacementValue[i] == range.zero
  {
    ApplyPixelMaskView(view, range, Zeros(|replacementValue|, range))
  }

  /** The constructor as its comment describes it: the replacement is stored. */
  function MakeApplyPixelMaskViewIntended<T>(view: View<PixelMask<T>>, replacementValue: seq<T>, range: ChannelRange<T>): ApplyPixelMaskView<T> {
    ApplyPixelMaskView(view, range, replacementValue)
  }

  /** ApplyPixelMaskView::operator(): the child of a valid pixel, the stored replacement otherwise. */
  function ApplyAt<T(==)>(v: ApplyPixelMaskView<T>, col: int, row: int, plane: int): (px: seq<T>)
    ensures IsValid(v.view.pixel(col, row, plane), v.range) ==> px == v.view.pixel(col, row, plane).child
    ensures IsTransparent(v.view.pixel(col, row, plane), v.range) ==> px == v.replacementValue
  {
    var m := v.view.pixel(col, row, plane);
    if !IsTransparent(m, v.range) then m.child else v.replacementValue
  }

  /** apply_mask(view, value). */
  function ApplyMask<T>(view: View<PixelMask<T>>, value: seq<T>, range: ChannelRange<T>): (v: ApplyPixelMaskView<T>)
    ensures v.view == view && v.range == range && v.replacementValue == Zeros(|value|, range)
  {
    MakeApplyPixelMaskView(view, value, range)
  }

  /** apply_mask as intended: invalid pixels become the given value. */
  function ApplyMaskIntended<T>(view: View<PixelMask<T>>, value: seq<T>, range: ChannelRange<T>): ApplyPixelMaskView<T> {
    MakeApplyPixelMaskViewIntended(view, value, range)
  }

  /** As written, the value passed to apply_mask has no effect: any two replacements of one pixel type agree. */
  lemma ApplyMaskIgnoresReplacement<T>(view: View<PixelMask<T>>, v1: seq<T>, v2: seq<T>, range: ChannelRange<T>,
                                           col: int, row: int, plane: int)
    requires |v1| == |v2|
    ensures ApplyAt(ApplyMask(view, v1, range), col, row, plane) == ApplyAt(ApplyMask(view, v2, range), col, row, plane)
    ensures IsTransparent(view.pixel(col, row, plane), range) ==>
      ApplyAt(ApplyMask(view, v1, range), col, row, plane) == Zeros(|v1|, range)
  {
  }

  /**
   * apply_mask as written over an image holding the masked pixels of `src`
   * (an ImageView of PixelMask pixels, whose operator() returns a
   * reference): a pixel equal to the sentinel comes back as the zero pixel,
   * any other unchanged. Applied to the CreatePixelMaskView itself,
   * apply_mask does not compile, so the masked pixels are taken as an image.
   */
  lemma MaskRoundTripAsWritten<T>(src: View<seq<T>>, sentinel: seq<T>, replacement: seq<T>, r: ChannelRange<T>,
                                      col: int, row: int, plane: int)
    requires r.min == r.zero && r.max != r.zero
    ensures ApplyAt(ApplyMask(MaskedView(src, sentinel, true, r), replacement, r), col, row, plane) ==
      if src.pixel(col, row, plane) == sentinel then Zeros(|replacement|, r) else src.pixel(col, row, plane)
  {
    MaskPixelSpec(src.pixel(col, row, plane), sentinel, true, r);
  }

  /** The corrected round trip over the same image of masked pixels: a
      sentinel pixel comes back as the replacement, any other unchanged. */
  lemma MaskRoundTripIntended<T>(src: View<seq<T>>, sentinel: seq<T>, replacement: seq<T>, r: ChannelRange<T>,
                                     col: int, row: int, plane: int)
    requires r.min == r.zero && r.max != r.zero
    ensures ApplyAt(ApplyMaskIntended(MaskedView(src, sentinel, true, r), replacement, r), col, row, plane) ==
      if src.pixel(col, row, plane) == sentinel then replacement else src.pixel(col, row, plane)
  {
    MaskPixelSpec(src.pixel(col, row, plane), sentinel, true, r);
  }

  /**
   * Three 8-bit channels, sentinel (0, 0, 0), a source whose first pixel is
   * (0, 0, 0) and second (10, 20, 30), its masked pixels held in an image,
   * replacement (255, 255, 255): as written the first pixel comes back as
   * (0, 0, 0), not (255, 255, 255); the corrected view gives (255, 255, 255).
   */
  lemma ApplyMaskCounterexample(src: View<seq<int>>)
    requires src.pixel(0, 0, 0) == [0, 0, 0] && src.pixel(1, 0, 0) == [10, 20, 30]
    ensures ApplyAt(ApplyMask(MaskedView(src, [0, 0, 0], true, ChannelRange(0, 255, 0)), [255, 255, 255], ChannelRange(0, 255, 0)), 0, 0, 0) == [0, 0, 0]
    ensures ApplyAt(ApplyMask(MaskedView(src, [0, 0, 0], true, ChannelRange(0, 255, 0)), [255, 255, 255], ChannelRange(0, 255, 0)), 1, 0, 0) == [10, 20, 30]
    ensures ApplyAt(ApplyMaskIntended(MaskedView(src, [0, 0, 0], true, ChannelRange(0, 255, 0)), [255, 255, 255], ChannelRange(0, 255, 0)), 0, 0, 0) == [255, 255, 255]
    ensures ApplyAt(ApplyMaskIntended(MaskedView(src, [0, 0, 0], true, ChannelRange(0, 255, 0)), [255, 255, 255], ChannelRange(0, 255, 0)), 1, 0, 0) == [10, 20, 30]
  {
    var r := ChannelRange(0, 255, 0);
    assert Zeros(3, r) == [0, 0, 0];
    assert [10, 20, 30] != [0, 0, 0] by {
      assert [10, 20, 30][0] != [0, 0, 0][0];
    }
    MaskRoundTripAsWritten(src, [0, 0, 0], [255, 255, 255], r, 0, 0, 0);
    MaskRoundTripAsWritten(src, [0, 0, 0], [255, 255, 255], r, 1, 0, 0);
    MaskRoundTripIntended(src, [0, 0, 0], [255, 255, 255], r, 0, 0, 0);
    MaskRoundTripIntended(src, [0, 0, 0], [255, 255, 255], r, 1, 0, 0);
  }
}
