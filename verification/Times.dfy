/** Readings of a clock that does not go back. */
module Times {
  predicate Monotone(times: seq<int>) {
    forall i, j :: 0 <= i <= j < |times| ==> times[i] <= times[j]
  }
}
