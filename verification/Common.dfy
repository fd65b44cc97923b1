/** Result codes and the two small datatypes that every component uses. */
module Common {
  datatype Option<+T> = None | Some(value: T)

  // The repository takes its numeric codes from a header that is not part of it;
  // only which code is returned matters here.
  datatype Code =
    | ZOK
    | ZPARAM_INVALID
    | ZCAST_FAIL
    | ZNOT_SUPPORT
    | ZNOT_EXIST
    | ZEXIST
    | ZMEM_INSUFFICIENT
    | ZTIMEOUT
    | ZFAIL
    | ZEOF
    | UNDEFINED // the call reached behaviour that C++ leaves undefined

  // The index of the first element that meets a condition, or the length.
  function First<T>(s: seq<T>, meets: T -> bool): (i: nat)
    ensures i <= |s|
    ensures i < |s| ==> meets(s[i])
    ensures forall j :: 0 <= j < i ==> !meets(s[j])
  {
    if s == [] || meets(s[0]) then 0 else 1 + First(s[1..], meets)
  }

  function Reverse<T>(s: seq<T>): (r: seq<T>)
    ensures |r| == |s|
    ensures forall k :: 0 <= k < |s| ==> r[k] == s[|s| - 1 - k]
  {
    if s == [] then [] else Reverse(s[1..]) + [s[0]]
  }

  lemma {:induction false} ReverseTwice<T>(s: seq<T>)
    ensures Reverse(Reverse(s)) == s
  {
    forall k | 0 <= k < |s| ensures Reverse(Reverse(s))[k] == s[k] {
      assert Reverse(Reverse(s))[k] == Reverse(s)[|s| - 1 - k];
    }
  }
}
