/** The string work behind the operators: first-occurrence search and removal
    (`std::string::find` and `erase`), truncation of a number to a repeat
    count (`static_cast<int>`), and repetition by appending. */
module TextOps {

  datatype Option<T> = None | Some(value: T)

  /** `needle` occurs in `hay` starting at index `j`. */
  predicate OccursAt(hay: string, needle: string, j: nat)
  {
    j + |needle| <= |hay| && hay[j..j + |needle|] == needle
  }

  /** The first occurrence of `needle` in `hay` at index `i` or later. */
  function FindFrom(hay: string, needle: string, i: nat): (r: Option<nat>)
    decreases |hay| - i
    ensures r.Some? ==> i <= r.value && OccursAt(hay, needle, r.value)
    ensures r.Some? ==> forall j :: i <= j < r.value ==> !OccursAt(hay, needle, j)
    ensures r.None? ==> forall j :: i <= j ==> !OccursAt(hay, needle, j)
  {
    if i + |needle| > |hay| then None
    else if hay[i..i + |needle|] == needle then Some(i)
    else FindFrom(hay, needle, i + 1)
  }

  /** `hay.find(needle)`: the least index where `needle` occurs, or `npos`
      (here `None`) when there is none. The empty needle occurs at 0. */
  function Find(hay: string, needle: string): (r: Option<nat>)
    ensures r.Some? <==> exists j :: OccursAt(hay, needle, j)
    ensures r.Some? ==> OccursAt(hay, needle, r.value)
    ensures r.Some? ==> forall j: nat :: j < r.value ==> !OccursAt(hay, needle, j)
    ensures needle == [] ==> r == Some(0)
  {
    var r := FindFrom(hay, needle, 0);
    assert r.Some? ==> OccursAt(hay, needle, r.value);
    assert needle == [] ==> OccursAt(hay, needle, 0);
    r
  }

  /** `s.erase(pos, count)`: removes at most `count` characters from `pos`;
      `pos` past the end throws, which the caller never causes. */
  function Erase(s: string, pos: nat, count: nat): string
    requires pos <= |s|
  {
    var stop := if count <= |s| - pos then pos + count else |s|;
    s[..pos] + s[stop..]
  }

  /** String subtraction: the first occurrence of `right` removed from `left`,
      or `left` unchanged when `right` does not occur. Putting `right` back at
      the position where it was found gives `left` again. */
  function RemoveFirst(left: string, right: string): (out: string)
    ensures Find(left, right).None? ==> out == left
    ensures right == [] ==> out == left
    ensures Find(left, right).Some? ==>
      var p := Find(left, right).value;
      |out| == |left| - |right| &&
      out == left[..p] + left[p + |right|..] &&
      out[..p] + right + out[p..] == left
  {
    match Find(left, right)
    case None => left
    case Some(pos) =>
      var out := Erase(left, pos, |right|);
      assert out[..pos] == left[..pos] && out[pos..] == left[pos + |right|..];
      assert left == left[..pos] + left[pos..pos + |right|] + left[pos + |right|..];
      out
  }

  /** `static_cast<int>` of a number: truncation toward zero. Numbers outside
      the `int` range are not considered (the cast is undefined there). */
  function Trunc(x: real): (k: int)
    ensures 0.0 <= x ==> k as real <= x < k as real + 1.0
    ensures x < 0.0 ==> k as real - 1.0 < x <= k as real
    ensures k <= 0 <==> x < 1.0
  {
    if 0.0 <= x then x.Floor else -((-x).Floor)
  }

  /** The repetition the multiplication loop builds: `count` copies of `s`,
      each appended after the previous ones. */
  function Repeat(s: string, count: nat): string
  {
    if count == 0 then [] else Repeat(s, count - 1) + s
  }

  /** `count` copies of `s` have `count` times the length of `s`. */
  lemma {:induction false} RepeatLength(s: string, count: nat)
    ensures |Repeat(s, count)| == count * |s|
  {
    if count > 0 {
      RepeatLength(s, count - 1);
      assert |Repeat(s, count)| == (count - 1) * |s| + |s|;
    }
  }

  /** Character `i` of the repetition is character `i mod |s|` of `s`. */
  lemma {:induction false} RepeatAt(s: string, count: nat, i: nat)
    requires i < count * |s|
    ensures |Repeat(s, count)| == count * |s|
    ensures Repeat(s, count)[i] == s[i % |s|]
  {
    RepeatLength(s, count);
    var m := (count - 1) * |s|;
    RepeatLength(s, count - 1);
    assert count * |s| == m + |s|;
    if i < m {
      RepeatAt(s, count - 1, i);
    } else {
      var d := i - m;
      assert 0 <= d < |s|;
      ModOfBlock(i, count - 1, |s|);
      assert Repeat(s, count)[i] == s[d];
    }
  }

  /** An index in block `q` of width `w` has remainder its offset in the block. */
  lemma ModOfBlock(i: nat, q: nat, w: nat)
    requires q * w <= i < q * w + w
    ensures i % w == i - q * w
  {
    var d, q', d' := i - q * w, i / w, i % w;
    assert i == q' * w + d' && 0 <= d' < w;
    assert (q - q') * w == d' - d by {
      assert (q - q') * w == q * w - q' * w;
    }
    if q > q' {
      MulAtLeast(q - q', w);
    } else if q < q' {
      MulAtLeast(q' - q, w);
    }
  }

  /** A positive multiple of `w` is at least `w`. */
  lemma MulAtLeast(a: int, w: nat)
    requires 1 <= a
    ensures a * w >= w
  {
  }

  /** The loop of the multiplication branch: append `s` to an initially empty
      result `count` times. A count of zero or less leaves it empty. */
  method RepeatLoop(s: string, count: int) returns (result: string)
    ensures count <= 0 ==> result == []
    ensures 0 < count ==> result == Repeat(s, count)
  {
    result := [];
    var i := 0;
    while i < count
      invariant 0 <= i && (0 < count ==> i <= count) && (count <= 0 ==> i == 0)
      invariant result == Repeat(s, i)
    {
      result := result + s;
      i := i + 1;
    }
  }
}
