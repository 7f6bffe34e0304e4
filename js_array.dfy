/** The three built-in JavaScript array operations the matchmaking gateway
    relies on, as functions on sequences: `indexOf` (identity search),
    `splice(start, 1)` (removal of one element, with JavaScript's treatment
    of negative and out-of-range starts) and `shift` (removal of the head). */
module JsArray {

  /** `q.indexOf(x)`: the position of the first element equal to `x`, or -1
      when there is none. */
  function IndexOf<T(==)>(q: seq<T>, x: T): (i: int)
    ensures -1 <= i < |q|
    ensures i == -1 <==> x !in q
    ensures 0 <= i ==> q[i] == x && x !in q[..i]
  {
    if q == [] then -1
    else if q[0] == x then 0
    else
      var j := IndexOf(q[1..], x);
      if j == -1 then -1 else j + 1
  }

  /** `q.splice(start, 1)`, as far as the array is concerned (the removed
      elements it returns are not used by the gateway). A negative start
      counts from the end and is clamped at 0; a start past the end removes
      nothing. */
  function SpliceOne<T>(q: seq<T>, start: int): (r: seq<T>)
    ensures 0 <= start < |q| ==> r == q[..start] + q[start + 1..]
    ensures -|q| <= start < 0 ==> r == q[..|q| + start] + q[|q| + start + 1..]
    ensures start == -1 ==> r == if q == [] then [] else q[..|q| - 1]
    ensures start < -|q| ==> r == if q == [] then [] else q[1..]
    ensures |q| <= start ==> r == q
  {
    var len := |q|;
    var actualStart := if start < 0 then (if len + start < 0 then 0 else len + start)
                       else (if start < len then start else len);
    var deleteCount := if len - actualStart < 1 then len - actualStart else 1;
    q[..actualStart] + q[actualStart + deleteCount..]
  }

  /** `q.shift()` on a non-empty array: the removed head and what remains. */
  function Shift<T>(q: seq<T>): (r: (T, seq<T>))
    requires q != []
    ensures [r.0] + r.1 == q
  {
    (q[0], q[1..])
  }
}
