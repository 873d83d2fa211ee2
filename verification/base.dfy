/** Failure-carrying values shared by every module of the model.

  Python raises exceptions; the model returns them. `Error` names the
  exception classes the modelled code can raise (or lets escape from the
  browser session), so that callers can tell a configuration error from a
  session abort.
 */
module Base {

  datatype Option<+T> = None | Some(value: T)

  /** The exception classes that can escape from the modelled code. */
  datatype Error =
    | ValueError        // int()/strptime() rejected a string, or no account matched
    | IndexError        // a list was indexed past its end
    | FileExistsError   // mkdir(exist_ok=True) over an existing non-directory
    | OverflowError     // date arithmetic left the calendar's range
    | TimeoutError      // a bounded wait expired
    | AttributeError    // a method the driver does not define was called

  datatype Result<+T> = Ok(value: T) | Err(error: Error)

  /** Python's `max(0, n)`, used for lengths of half-open ranges. */
  function Clamp0(n: int): nat {
    if n < 0 then 0 else n
  }

  /** The next element of a Python `for` over a set or dict: any element.
      Sets have no defined order; dicts follow insertion order, which the
      model deliberately leaves open so that its contracts hold for every
      order. */
  method Choose<T>(s: set<T>) returns (x: T)
    requires s != {}
    ensures x in s
  {
    x :| x in s;
  }

  /** A Python dict filled by `d[key] = value` in order: a later pair for a
      key replaces the earlier one. */
  function LastWins<V>(pairs: seq<(int, V)>): map<int, V> {
    if |pairs| == 0 then map[]
    else LastWins(pairs[..|pairs| - 1])[pairs[|pairs| - 1].0 := pairs[|pairs| - 1].1]
  }

  /** The dict has a key for every pair, and each key holds the value of the
      last pair with that key. */
  lemma {:induction false} LastWinsContents<V>(pairs: seq<(int, V)>)
    ensures forall k :: k in LastWins(pairs) <==> exists i :: 0 <= i < |pairs| && pairs[i].0 == k
    ensures forall i :: 0 <= i < |pairs| && (forall j :: i < j < |pairs| ==> pairs[j].0 != pairs[i].0) ==>
      LastWins(pairs)[pairs[i].0] == pairs[i].1
  {
    if |pairs| > 0 {
      var n := |pairs| - 1;
      var front := pairs[..n];
      LastWinsContents(front);
      assert forall j :: 0 <= j < n ==> front[j] == pairs[j];
      forall k | k in LastWins(pairs)
        ensures exists i :: 0 <= i < |pairs| && pairs[i].0 == k
      {
        if k != pairs[n].0 {
          var i :| 0 <= i < n && front[i].0 == k;
          assert pairs[i].0 == k;
        }
      }
    }
  }

  /** Apply a fallible conversion to every item in order, stopping at the
      first failure (a Python loop whose body may raise). */
  function ParseAll<T, V>(items: seq<T>, f: T -> Result<V>): (r: Result<seq<V>>)
    ensures r.Ok? <==> forall i :: 0 <= i < |items| ==> f(items[i]).Ok?
    ensures r.Ok? ==> |r.value| == |items| && forall i :: 0 <= i < |items| ==> r.value[i] == f(items[i]).value
    ensures r.Err? ==> exists i :: 0 <= i < |items| && f(items[i]) == Err(r.error)
                         && forall j :: 0 <= j < i ==> f(items[j]).Ok?
    decreases |items|
  {
    if |items| == 0 then Ok([])
    else
      var n := |items| - 1;
      var front := ParseAll(items[..n], f);
      assert forall j :: 0 <= j < n ==> items[..n][j] == items[j];
      if front.Err? then front
      else
        var last := f(items[n]);
        if last.Err? then Err(last.error) else Ok(front.value + [last.value])
  }

  /** A dict built by a loop that converts each item to a key and a value,
      assigning in order; the first failing conversion aborts the loop. The
      dict holds a key for every item, with the value of the last item
      carrying that key. */
  function IndexAll<T, V>(items: seq<T>, f: T -> Result<(int, V)>): (r: Result<map<int, V>>)
    ensures r.Ok? <==> forall i :: 0 <= i < |items| ==> f(items[i]).Ok?
    ensures r.Err? ==> exists i :: 0 <= i < |items| && f(items[i]) == Err(r.error)
                         && forall j :: 0 <= j < i ==> f(items[j]).Ok?
    ensures r.Ok? ==> forall k :: k in r.value <==> exists i :: 0 <= i < |items| && f(items[i]).value.0 == k
    ensures r.Ok? ==> forall i :: 0 <= i < |items| ==> f(items[i]).value.0 in r.value
    ensures r.Ok? ==> (forall i :: 0 <= i < |items| && (forall j :: i < j < |items| ==> f(items[j]).value.0 != f(items[i]).value.0) ==>
                         r.value[f(items[i]).value.0] == f(items[i]).value.1)
  {
    match ParseAll(items, f)
    case Err(e) => Err(e)
    case Ok(pairs) =>
      LastWinsContents(pairs);
      Ok(LastWins(pairs))
  }

  /** Every value of the dict comes from an item carrying its key. */
  lemma IndexAllValues<T, V>(items: seq<T>, f: T -> Result<(int, V)>)
    requires IndexAll(items, f).Ok?
    ensures var m := IndexAll(items, f).value;
      forall k :: k in m ==> exists i :: 0 <= i < |items| && f(items[i]).value == (k, m[k])
  {
    var m := IndexAll(items, f).value;
    forall k | k in m
      ensures exists i :: 0 <= i < |items| && f(items[i]).value == (k, m[k])
    {
      var i :| 0 <= i < |items| && f(items[i]).value.0 == k;
      var last := LastWithKey(items, f, i);
      assert f(items[last]).value == (k, m[k]);
    }
  }

  /** The last position at or after `i` whose key equals that of `i`. */
  ghost function LastWithKey<T, V>(items: seq<T>, f: T -> Result<(int, V)>, i: nat): (j: nat)
    requires i < |items| && forall n :: 0 <= n < |items| ==> f(items[n]).Ok?
    ensures i <= j < |items| && f(items[j]).value.0 == f(items[i]).value.0
    ensures forall n :: j < n < |items| ==> f(items[n]).value.0 != f(items[i]).value.0
    decreases |items| - i
  {
    if exists n :: i < n < |items| && f(items[n]).value.0 == f(items[i]).value.0 then
      var n :| i < n < |items| && f(items[n]).value.0 == f(items[i]).value.0;
      LastWithKey(items, f, n)
    else i
  }
}
