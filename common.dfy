/** Shared vocabulary of the model: optional values, handler outcomes and two
    sequence queries (filtering and first-match search) that stand for the
    SQL `filter(...)`, `.all()` and `.first()` calls of the backend. */
module Common {

  /** A value that may be absent: a JSON key the request did not send, or a
      nullable column. */
  datatype Option<T> = None | Some(value: T) {
    function GetOr(default: T): T {
      if Some? then value else default
    }
  }

  /** What a request handler answers: the success value, or the HTTP status and
      the message of the error body. */
  datatype Outcome<T> = Ok(value: T) | Fail(status: int, message: string)

  /** The body Flask answers with (HTTP 500) when a handler raises, for
      instance a `ValueError` from date parsing or an `IntegrityError` from a
      database constraint at commit time. */
  const ServerError: string := "Internal Server Error"

  /** The elements of `s` that satisfy `p`, in their original order. */
  function Filter<T>(s: seq<T>, p: T -> bool): (r: seq<T>)
    ensures |r| <= |s|
    ensures forall j :: 0 <= j < |r| ==> r[j] in s && p(r[j])
    ensures forall j :: 0 <= j < |s| && p(s[j]) ==> s[j] in r
  {
    if s == [] then [] else (if p(s[0]) then [s[0]] else []) + Filter(s[1..], p)
  }

  /** A weaker filter keeps at least as many elements. */
  lemma {:induction false} FilterMonotone<T>(s: seq<T>, p: T -> bool, q: T -> bool)
    requires forall j :: 0 <= j < |s| && p(s[j]) ==> q(s[j])
    ensures |Filter(s, p)| <= |Filter(s, q)|
  {
    if s != [] {
      FilterMonotone(s[1..], p, q);
    }
  }

  /** Filtering out exactly one position is the same as cutting it out. */
  lemma {:induction false} FilterDropsOne<T>(s: seq<T>, p: T -> bool, k: nat)
    requires k < |s| && !p(s[k])
    requires forall j :: 0 <= j < |s| && j != k ==> p(s[j])
    ensures Filter(s, p) == RemoveAt(s, k)
  {
    var tail := s[1..];
    if k == 0 {
      assert forall j :: 0 <= j < |tail| ==> p(tail[j]) by {
        forall j | 0 <= j < |tail| ensures p(tail[j]) {
          assert tail[j] == s[j + 1];
        }
      }
      FilterKeepsAll(tail, p);
      assert Filter(s, p) == Filter(tail, p);
    } else {
      assert forall j :: 0 <= j < |tail| && j != k - 1 ==> p(tail[j]) by {
        forall j | 0 <= j < |tail| && j != k - 1 ensures p(tail[j]) {
          assert tail[j] == s[j + 1];
        }
      }
      FilterDropsOne(tail, p, k - 1);
      var rest := Filter(tail, p);
      assert rest == tail[..k - 1] + tail[k..];
      assert tail[..k - 1] == s[1..k] && tail[k..] == s[k + 1..];
      assert p(s[0]) && Filter(s, p) == [s[0]] + rest;
      assert [s[0]] + (s[1..k] + s[k + 1..]) == ([s[0]] + s[1..k]) + s[k + 1..];
      assert [s[0]] + s[1..k] == s[..k];
    }
  }

  /** A filter every element passes changes nothing. */
  lemma {:induction false} FilterKeepsAll<T>(s: seq<T>, p: T -> bool)
    requires forall j :: 0 <= j < |s| ==> p(s[j])
    ensures Filter(s, p) == s
  {
    if s != [] {
      FilterKeepsAll(s[1..], p);
      assert [s[0]] + s[1..] == s;
    }
  }

  /** Filtering a sequence with one more element at its end. */
  lemma {:induction false} FilterAppend<T>(s: seq<T>, x: T, p: T -> bool)
    ensures Filter(s + [x], p) == Filter(s, p) + (if p(x) then [x] else [])
  {
    var t := s + [x];
    var last := if p(x) then [x] else [];
    if s == [] {
      assert t == [x] && t[1..] == [];
      assert Filter(t, p) == last + Filter([], p);
    } else {
      FilterAppend(s[1..], x, p);
      var head := if p(s[0]) then [s[0]] else [];
      assert t[0] == s[0] && t[1..] == s[1..] + [x];
      assert Filter(t, p) == head + Filter(s[1..] + [x], p);
      assert Filter(t, p) == head + (Filter(s[1..], p) + last);
      assert Filter(s, p) == head + Filter(s[1..], p);
    }
  }

  /** `s` without its element at position `k`; the others keep their order. */
  function RemoveAt<T>(s: seq<T>, k: nat): (r: seq<T>)
    requires k < |s|
    ensures |r| == |s| - 1
    ensures forall i :: 0 <= i < |r| ==> r[i] == s[if i < k then i else i + 1]
  {
    s[..k] + s[k + 1..]
  }

  /** The position of the first element of `s` satisfying `p`, if any. */
  function IndexWhere<T>(s: seq<T>, p: T -> bool): (k: Option<nat>)
    ensures k.Some? ==> k.value < |s| && p(s[k.value])
    ensures k.Some? ==> forall j :: 0 <= j < k.value ==> !p(s[j])
    ensures k.None? <==> forall j :: 0 <= j < |s| ==> !p(s[j])
  {
    if s == [] then None
    else if p(s[0]) then Some(0)
    else match IndexWhere(s[1..], p)
      case None => None
      case Some(k) => Some(k + 1)
  }
}
