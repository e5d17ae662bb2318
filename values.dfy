/** The Python run-time notions the modelled code relies on: optional values,
    the decoded JSON/YAML values exchanged with the server and read from spec
    files, dictionaries (which keep insertion order), truthiness, `in`,
    subscripting, iteration, and the exceptions that the code raises or lets
    through. */
module Values {
  import opened Text

  datatype Option<+T> = None | Some(value: T)

  /** A decoded JSON/YAML value. `Obj` is a Python `dict`: an association
      list in insertion order. Floating-point numbers are not modelled. */
  datatype Json =
    | Null
    | Bool(b: bool)
    | Num(n: int)
    | Str(s: string)
    | Arr(items: seq<Json>)
    | Obj(entries: seq<(string, Json)>)

  type Entry = (string, Json)

  /** The exceptions of the modelled code. `ApiError` is the transport's
      `ErrorMessage`, carrying the error document's title and its data. */
  datatype Error =
    | KeyError(key: string)
    | TypeError
    | AttributeError
    | ValueError(message: string)
    | SystemExit(func: Json)
    | NotValidSpecVersion
    | NoModulesToInstall
    | ActionHasIssues
    | ApiError(title: string, data: seq<Entry>)
    | TaskFailed
    | WaitTimeout
    | ADCMApiError(message: string)

  datatype Result<+T> = Ok(value: T) | Err(error: Error) {
    predicate IsFailure() { Err? }
    function PropagateFailure<U>(): Result<U>
      requires Err?
    {
      Err(error)
    }
    function Extract(): T
      requires Ok?
    {
      value
    }
  }

  /** A dictionary in which no key occurs twice (every Python `dict`). */
  predicate Unique(d: seq<Entry>) {
    forall i, j :: 0 <= i < j < |d| ==> d[i].0 != d[j].0
  }

  predicate HasKey(d: seq<Entry>, k: string) {
    exists i :: 0 <= i < |d| && d[i].0 == k
  }

  /** `d.get(k)`: the value stored under `k`, found at its first entry. */
  function Get(d: seq<Entry>, k: string): (r: Option<Json>)
    ensures r.None? <==> !HasKey(d, k)
    decreases |d|
  {
    if d == [] then None
    else if d[0].0 == k then Some(d[0].1)
    else
      HasKeyCons(d[0], d[1..], k);
      assert d == [d[0]] + d[1..];
      Get(d[1..], k)
  }

  /** `d.get(k, default)`. */
  function GetOr(d: seq<Entry>, k: string, default: Json): Json {
    match Get(d, k)
    case Some(v) => v
    case None => default
  }

  /** `d[k] = v`: an existing key keeps its position, a new key is appended. */
  function Set(d: seq<Entry>, k: string, v: Json): (r: seq<Entry>)
    ensures Get(r, k) == Some(v)
    ensures forall k' :: k' != k ==> Get(r, k') == Get(d, k')
    ensures HasKey(d, k) ==> |r| == |d|
    ensures Unique(d) ==> Unique(r)
    decreases |d|
  {
    if d == [] then [(k, v)]
    else if d[0].0 == k then
      SetHead(d, k, v);
      [(k, v)] + d[1..]
    else
      var rest := Set(d[1..], k, v);
      SetCons(d, k, v, rest);
      [d[0]] + rest
  }

  /** `Set` at the first entry: the entry's value is replaced. */
  lemma SetHead(d: seq<Entry>, k: string, v: Json)
    requires d != [] && d[0].0 == k
    ensures Get([(k, v)] + d[1..], k) == Some(v)
    ensures forall k' :: k' != k ==> Get([(k, v)] + d[1..], k') == Get(d, k')
    ensures Unique(d) ==> Unique([(k, v)] + d[1..])
  {
    assert d == [d[0]] + d[1..];
    assert ([(k, v)] + d[1..])[1..] == d[1..];
    UniqueCons(d[0], d[1..]);
    UniqueCons((k, v), d[1..]);
  }

  /** `Set` past the first entry: the first entry is kept in front of the
      assignment into the rest. */
  lemma SetCons(d: seq<Entry>, k: string, v: Json, rest: seq<Entry>)
    requires d != [] && d[0].0 != k
    requires Get(rest, k) == Some(v)
    requires forall k' :: k' != k ==> Get(rest, k') == Get(d[1..], k')
    requires HasKey(d[1..], k) ==> |rest| == |d[1..]|
    requires Unique(d[1..]) ==> Unique(rest)
    ensures Get([d[0]] + rest, k) == Some(v)
    ensures forall k' :: k' != k ==> Get([d[0]] + rest, k') == Get(d, k')
    ensures HasKey(d, k) ==> |[d[0]] + rest| == |d|
    ensures Unique(d) ==> Unique([d[0]] + rest)
  {
    assert d == [d[0]] + d[1..];
    assert ([d[0]] + rest)[1..] == rest;
    HasKeyCons(d[0], d[1..], k);
    UniqueCons(d[0], d[1..]);
    UniqueCons(d[0], rest);
    assert Get(rest, d[0].0) == Get(d[1..], d[0].0);
  }

  /** `d.pop(k)` for a key that is present, and the identity otherwise: every
      entry under `k` is dropped (there is at most one in a `dict`). */
  function Remove(d: seq<Entry>, k: string): (r: seq<Entry>)
    ensures !HasKey(r, k)
    ensures forall k' :: k' != k ==> Get(r, k') == Get(d, k')
    ensures Unique(d) ==> Unique(r)
    decreases |d|
  {
    if d == [] then []
    else
      var rest := Remove(d[1..], k);
      UniqueCons(d[0], d[1..]);
      HasKeyCons(d[0], d[1..], k);
      if d[0].0 == k then rest
      else
        UniqueCons(d[0], rest);
        assert Get(rest, d[0].0) == Get(d[1..], d[0].0);
        assert ([d[0]] + rest)[1..] == rest;
        [d[0]] + rest
  }

  /** Assigning a key the dictionary does not have appends it. */
  lemma {:induction false} SetNewKey(d: seq<Entry>, k: string, v: Json)
    requires !HasKey(d, k)
    ensures Set(d, k, v) == d + [(k, v)]
    decreases |d|
  {
    if d != [] {
      HasKeyCons(d[0], d[1..], k);
      assert d == [d[0]] + d[1..];
      assert d[0].0 != k;
      SetNewKey(d[1..], k, v);
      calc {
        Set(d, k, v);
        [d[0]] + Set(d[1..], k, v);
        [d[0]] + (d[1..] + [(k, v)]);
        d + [(k, v)];
      }
    }
  }

  lemma HasKeyCons(e: Entry, rest: seq<Entry>, k: string)
    ensures HasKey([e] + rest, k) <==> k == e.0 || HasKey(rest, k)
  {
    if HasKey(rest, k) {
      var i :| 0 <= i < |rest| && rest[i].0 == k;
      assert ([e] + rest)[i + 1].0 == k;
    }
    if k == e.0 {
      assert ([e] + rest)[0].0 == k;
    }
    if HasKey([e] + rest, k) && k != e.0 {
      var i :| 0 <= i < |[e] + rest| && ([e] + rest)[i].0 == k;
      assert rest[i - 1].0 == k;
    }
  }

  lemma UniqueCons(e: Entry, rest: seq<Entry>)
    ensures Unique([e] + rest) <==> !HasKey(rest, e.0) && Unique(rest)
  {
    var d := [e] + rest;
    assert forall i :: 0 <= i < |rest| ==> rest[i] == d[i + 1];
    if Unique(d) {
      forall i | 0 <= i < |rest| ensures rest[i].0 != e.0 {
        assert d[0].0 != d[i + 1].0;
      }
      forall i, j | 0 <= i < j < |rest| ensures rest[i].0 != rest[j].0 {
        assert d[i + 1].0 != d[j + 1].0;
      }
    }
    if !HasKey(rest, e.0) && Unique(rest) {
      forall i, j | 0 <= i < j < |d| ensures d[i].0 != d[j].0 {
        if i == 0 {
          assert d[j] == rest[j - 1];
        } else {
          assert d[i] == rest[i - 1] && d[j] == rest[j - 1];
        }
      }
    }
  }

  /** Python truthiness. */
  predicate Truthy(j: Json) {
    match j
    case Null => false
    case Bool(b) => b
    case Num(n) => n != 0
    case Str(s) => s != ""
    case Arr(items) => items != []
    case Obj(entries) => entries != []
  }

  /** `key in c` for a string `key`: a dictionary tests its keys, a list its
      elements, a string its substrings; anything else raises TypeError. */
  function PyIn(key: string, c: Json): (r: Result<bool>)
    ensures c.Obj? ==> r == Ok(HasKey(c.entries, key))
    ensures c.Arr? ==> r == Ok(Str(key) in c.items)
    ensures c.Str? ==> r == Ok(Contains(c.s, key))
    ensures r.Err? <==> !(c.Obj? || c.Arr? || c.Str?)
  {
    match c
    case Obj(entries) => Ok(HasKey(entries, key))
    case Arr(items) => Ok(Str(key) in items)
    case Str(s) => Ok(Contains(s, key))
    case _ => Err(TypeError)
  }

  /** `c[key]` for a string `key`: only a dictionary can be indexed by it. */
  function PyIndex(c: Json, key: string): (r: Result<Json>)
    ensures r.Ok? <==> c.Obj? && HasKey(c.entries, key)
    ensures r.Ok? ==> Get(c.entries, key) == Some(r.value)
    ensures c.Obj? && !HasKey(c.entries, key) ==> r == Err(KeyError(key))
    ensures !c.Obj? ==> r == Err(TypeError)
  {
    match c
    case Obj(entries) =>
      (match Get(entries, key)
       case Some(v) => Ok(v)
       case None => Err(KeyError(key)))
    case _ => Err(TypeError)
  }

  /** The dictionary behind `c.get(...)`: anything else has no `get`. */
  function AsDict(c: Json): (r: Result<seq<Entry>>)
    ensures r.Ok? <==> c.Obj?
    ensures c.Obj? ==> r == Ok(c.entries)
    ensures !c.Obj? ==> r == Err(AttributeError)
  {
    if c.Obj? then Ok(c.entries) else Err(AttributeError)
  }

  function KeysOf(d: seq<Entry>): (r: seq<Json>)
    ensures |r| == |d| && forall i :: 0 <= i < |d| ==> r[i] == Str(d[i].0)
    decreases |d|
  {
    if d == [] then [] else [Str(d[0].0)] + KeysOf(d[1..])
  }

  function CharsOf(s: string): (r: seq<Json>)
    ensures |r| == |s| && forall i :: 0 <= i < |s| ==> r[i] == Str([s[i]])
    decreases |s|
  {
    if s == [] then [] else [Str([s[0]])] + CharsOf(s[1..])
  }

  /** What `for x in c` visits: a list's elements, a dictionary's keys, a
      string's characters; anything else is not iterable. */
  function PyIter(c: Json): (r: Result<seq<Json>>)
    ensures c.Arr? ==> r == Ok(c.items)
    ensures c.Obj? ==> r == Ok(KeysOf(c.entries))
    ensures c.Str? ==> r == Ok(CharsOf(c.s))
    ensures r.Err? <==> !(c.Obj? || c.Arr? || c.Str?)
  {
    match c
    case Arr(items) => Ok(items)
    case Obj(entries) => Ok(KeysOf(entries))
    case Str(s) => Ok(CharsOf(s))
    case _ => Err(TypeError)
  }

  /** `c[:]`: a list or a string can be sliced; a dictionary or a scalar
      raises TypeError. The result is what iterating the copy visits. */
  function PySliceAll(c: Json): (r: Result<seq<Json>>)
    ensures c.Arr? ==> r == Ok(c.items)
    ensures c.Str? ==> r == Ok(CharsOf(c.s))
    ensures r.Err? <==> !(c.Arr? || c.Str?)
  {
    match c
    case Arr(items) => Ok(items)
    case Str(s) => Ok(CharsOf(s))
    case _ => Err(TypeError)
  }

  /** In a dictionary every entry is what its key looks up. */
  lemma {:induction false} GetOfUniqueAt(d: seq<Entry>, i: nat)
    requires Unique(d) && i < |d|
    ensures Get(d, d[i].0) == Some(d[i].1)
    decreases |d|
  {
    if i > 0 {
      UniqueCons(d[0], d[1..]);
      assert d == [d[0]] + d[1..];
      assert d[1..][i - 1] == d[i];
      GetOfUniqueAt(d[1..], i - 1);
    }
  }

  /** A key that is found is stored in some entry. */
  lemma {:induction false} GetFound(d: seq<Entry>, k: string)
    requires HasKey(d, k)
    ensures exists i :: 0 <= i < |d| && d[i] == (k, Get(d, k).value)
    decreases |d|
  {
    if d[0].0 != k {
      HasKeyCons(d[0], d[1..], k);
      assert d == [d[0]] + d[1..];
      GetFound(d[1..], k);
      var i :| 0 <= i < |d[1..]| && d[1..][i] == (k, Get(d[1..], k).value);
      assert d[i + 1] == d[1..][i];
    }
  }

  /** Writing back the value a key already holds leaves the dictionary as it was. */
  lemma {:induction false} SetSameValue(d: seq<Entry>, k: string)
    requires HasKey(d, k)
    ensures Set(d, k, Get(d, k).value) == d
    decreases |d|
  {
    if d[0].0 != k {
      assert HasKey(d[1..], k) by {
        var i :| 0 <= i < |d| && d[i].0 == k;
        assert d[1..][i - 1].0 == k;
      }
      SetSameValue(d[1..], k);
    }
  }
}
