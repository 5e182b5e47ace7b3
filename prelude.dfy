/** Small value types shared by the whole model. */
module Wrappers {

  /** JavaScript `null`/`undefined` versus a present value. */
  datatype Option<+T> = None | Some(value: T) {
    function GetOr(default: T): T {
      match this
      case Some(v) => v
      case None => default
    }
  }

  /** A computation that either returns a value or throws. */
  datatype Result<+T, +E> = Success(value: T) | Failure(error: E)

  /** The result of an asynchronous environment call: its callback got a value or an error. */
  datatype Fetch<+T> = Fetched(value: T) | FetchFailed

  /** Writing a key twice leaves only the second value. */
  lemma OverwriteTwice<K, V>(m: map<K, V>, k: K, a: V, b: V)
    ensures m[k := a][k := b] == m[k := b]
  {
  }
}

/** The "for loop with an early return" that every lookup of the listener performs. */
module Search {
  import opened Wrappers

  /** Index of the first element of `s` that satisfies `p`, or None when there is none. */
  function FirstIndex<T>(s: seq<T>, p: T -> bool): (r: Option<nat>)
    ensures r.Some? ==> r.value < |s| && p(s[r.value])
    ensures r.Some? ==> forall j :: 0 <= j < r.value ==> !p(s[j])
    ensures r.None? ==> forall j :: 0 <= j < |s| ==> !p(s[j])
    decreases |s|
  {
    if |s| == 0 then None
    else if p(s[0]) then Some(0)
    else match FirstIndex(s[1..], p)
      case None => None
      case Some(k) => Some(k + 1)
  }
}

/** The JavaScript string operations the listener relies on, over `seq<char>`. */
module JsStrings {

  /** JavaScript truthiness of a string: only the empty string is falsy. */
  predicate Truthy(s: string) {
    s != ""
  }

  /** `s.substring(0, n)`: the first `n` characters, or all of `s` when it is shorter. */
  function SubstringTo(s: string, n: nat): (r: string)
    ensures r <= s
    ensures |r| == if n <= |s| then n else |s|
  {
    if n <= |s| then s[..n] else s
  }

  /** `s.substring(n)`: what follows the first `n` characters, or "" when `s` is shorter. */
  function SubstringFrom(s: string, n: nat): (r: string)
    ensures SubstringTo(s, n) + r == s
  {
    if n <= |s| then s[n..] else ""
  }

  /** True when "0x" occurs somewhere in `s`. */
  predicate HasHexMarker(s: string) {
    exists i :: 0 <= i < |s| - 1 && s[i] == '0' && s[i + 1] == 'x'
  }

  /** `s.replace('0x', '')`: removes the FIRST occurrence of "0x", wherever it is. */
  function RemoveFirstHexMarker(s: string): (r: string)
    ensures |s| >= 2 && s[..2] == "0x" ==> r == s[2..]
    ensures !HasHexMarker(s) ==> r == s
    ensures HasHexMarker(s) ==> |r| + 2 == |s|
    decreases |s|
  {
    if |s| < 2 then s
    else if s[..2] == "0x" then
      assert s[0] == '0' && s[1] == 'x';
      s[2..]
    else
      assert HasHexMarker(s[1..]) ==> HasHexMarker(s) by {
        if HasHexMarker(s[1..]) {
          var i :| 0 <= i < |s[1..]| - 1 && s[1..][i] == '0' && s[1..][i + 1] == 'x';
          assert s[i + 1] == '0' && s[i + 2] == 'x';
        }
      }
      assert HasHexMarker(s) ==> HasHexMarker(s[1..]) by {
        if HasHexMarker(s) {
          var i :| 0 <= i < |s| - 1 && s[i] == '0' && s[i + 1] == 'x';
          assert i != 0;
          assert s[1..][i - 1] == '0' && s[1..][i] == 'x';
        }
      }
      [s[0]] + RemoveFirstHexMarker(s[1..])
  }

  /** `s.split(c)[0]`: the part of `s` before the first `c`, or all of `s` when there is none. */
  function BeforeFirst(s: string, c: char): (r: string)
    ensures r <= s
    ensures c !in r
    ensures |r| < |s| ==> s[|r|] == c
    decreases |s|
  {
    if s == [] then []
    else if s[0] == c then []
    else [s[0]] + BeforeFirst(s[1..], c)
  }

  /** The part before the first `c` of p + [c] + q, where p has no `c`, is p. */
  lemma BeforeFirstOfSplit(s: string, c: char, p: string, q: string)
    requires s == p + [c] + q && c !in p
    ensures BeforeFirst(s, c) == p
  {
    var r := BeforeFirst(s, c);
    assert s[|p|] == c;
    assert |r| == |p|;
    assert r == s[..|r|] && p == s[..|p|];
  }
}
