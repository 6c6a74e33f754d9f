/** Value wrappers, the integer widths of the wire protocol, and a first-error
    map over sequences that the codec's loops are specified by. */
module Common {

  datatype Option<+T> = None | Some(value: T) {
    /** The value, or `default` when absent (a protobuf getter on an unset field). */
    function GetOr(default: T): T {
      match this
      case Some(v) => v
      case None => default
    }
  }

  datatype Result<+T, +E> = Ok(value: T) | Err(error: E)

  type int32 = x: int | -0x8000_0000 <= x < 0x8000_0000
  type int64 = x: int | -0x8000_0000_0000_0000 <= x < 0x8000_0000_0000_0000
  type uint8 = x: int | 0 <= x < 0x100
  type Bytes = seq<uint8>

  /** An IEEE-754 double, kept as its bit pattern and never interpreted. */
  datatype Float64 = Float64(bits: bv64)

  /** Applies `f` to each element of `xs` in order, appending each result to
      `acc`; the first failure is the result.  This is the shape of every
      `foreach` loop of the codec that builds a repeated field and lets an
      exception escape. */
  function MapResultFrom<A, B, E>(f: A -> Result<B, E>, acc: seq<B>, xs: seq<A>): (r: Result<seq<B>, E>)
    ensures r.Ok? <==> forall i | 0 <= i < |xs| :: f(xs[i]).Ok?
    ensures r.Ok? ==> |r.value| == |acc| + |xs| && r.value[..|acc|] == acc
    ensures r.Ok? ==> forall i | 0 <= i < |xs| :: r.value[|acc| + i] == f(xs[i]).value
    ensures r.Err? ==> exists i | 0 <= i < |xs| :: f(xs[i]) == Err(r.error) && forall j | 0 <= j < i :: f(xs[j]).Ok?
    decreases |xs|
  {
    if xs == [] then Ok(acc)
    else if f(xs[0]).Err? then Err(f(xs[0]).error)
    else
      var r := MapResultFrom(f, acc + [f(xs[0]).value], xs[1..]);
      MapResultFromShift(f, acc, xs, r);
      r
  }

  /** The index bookkeeping for one unfolding of `MapResultFrom`. */
  lemma MapResultFromShift<A, B, E>(f: A -> Result<B, E>, acc: seq<B>, xs: seq<A>, r: Result<seq<B>, E>)
    requires xs != [] && f(xs[0]).Ok?
    requires r.Ok? <==> forall i | 0 <= i < |xs[1..]| :: f(xs[1..][i]).Ok?
    requires r.Ok? ==> |r.value| == |acc| + 1 + |xs[1..]| && r.value[..|acc| + 1] == acc + [f(xs[0]).value]
    requires r.Ok? ==> forall i | 0 <= i < |xs[1..]| :: r.value[|acc| + 1 + i] == f(xs[1..][i]).value
    requires r.Err? ==> exists i | 0 <= i < |xs[1..]| :: f(xs[1..][i]) == Err(r.error) && forall j | 0 <= j < i :: f(xs[1..][j]).Ok?
    ensures r.Ok? <==> forall i | 0 <= i < |xs| :: f(xs[i]).Ok?
    ensures r.Ok? ==> |r.value| == |acc| + |xs| && r.value[..|acc|] == acc
    ensures r.Ok? ==> forall i | 0 <= i < |xs| :: r.value[|acc| + i] == f(xs[i]).value
    ensures r.Err? ==> exists i | 0 <= i < |xs| :: f(xs[i]) == Err(r.error) && forall j | 0 <= j < i :: f(xs[j]).Ok?
  {
    assert forall i | 1 <= i < |xs| :: xs[1..][i - 1] == xs[i];
    if r.Ok? {
      assert r.value[..|acc|] == r.value[..|acc| + 1][..|acc|];
      forall i | 0 <= i < |xs| ensures r.value[|acc| + i] == f(xs[i]).value {
        if i == 0 {
          assert r.value[|acc|] == r.value[..|acc| + 1][|acc|];
        } else {
          assert r.value[|acc| + 1 + (i - 1)] == f(xs[1..][i - 1]).value;
        }
      }
    } else {
      var k :| 0 <= k < |xs[1..]| && f(xs[1..][k]) == Err(r.error) && forall j | 0 <= j < k :: f(xs[1..][j]).Ok?;
      assert f(xs[k + 1]) == Err(r.error);
      forall j | 0 <= j < k + 1 ensures f(xs[j]).Ok? {
        if j > 0 { assert xs[j] == xs[1..][j - 1]; }
      }
    }
  }

  /** `f` applied to every element of `xs`, or the first failure. */
  function MapResult<A, B, E>(f: A -> Result<B, E>, xs: seq<A>): (r: Result<seq<B>, E>)
    ensures r.Ok? <==> forall i | 0 <= i < |xs| :: f(xs[i]).Ok?
    ensures r.Ok? ==> |r.value| == |xs| && forall i | 0 <= i < |xs| :: Ok(r.value[i]) == f(xs[i])
    ensures r.Err? ==> exists i | 0 <= i < |xs| :: f(xs[i]) == Err(r.error)
  {
    var r := MapResultFrom(f, [], xs);
    assert r.Ok? ==> forall i | 0 <= i < |xs| :: r.value[0 + i] == f(xs[i]).value;
    r
  }

  /** One step of a loop specified by `MapResultFrom`. */
  lemma MapResultStep<A, B, E>(f: A -> Result<B, E>, acc: seq<B>, xs: seq<A>, i: nat)
    requires i < |xs|
    ensures MapResultFrom(f, acc, xs[i..]) ==
      if f(xs[i]).Err? then Err(f(xs[i]).error) else MapResultFrom(f, acc + [f(xs[i]).value], xs[i + 1..])
  {
    assert xs[i..][0] == xs[i];
    assert xs[i..][1..] == xs[i + 1..];
  }

  /** Two maps that undo each other element by element undo each other on sequences. */
  lemma MapResultInverse<A, B, E>(f: A -> Result<B, E>, g: B -> Result<A, E>, xs: seq<A>)
    requires MapResult(f, xs).Ok?
    requires forall i | 0 <= i < |xs| :: g(f(xs[i]).value) == Ok(xs[i])
    ensures MapResult(g, MapResult(f, xs).value) == Ok(xs)
  {
    var ys := MapResult(f, xs).value;
    assert |ys| == |xs|;
    assert forall i | 0 <= i < |ys| :: ys[i] == f(xs[i]).value by {
      forall i | 0 <= i < |ys| ensures ys[i] == f(xs[i]).value {
        assert ys[0 + i] == f(xs[i]).value;
      }
    }
    var zs := MapResult(g, ys);
    assert zs.Ok?;
    assert |zs.value| == |xs|;
    forall i | 0 <= i < |xs| ensures zs.value[i] == xs[i] {
      assert zs.value[0 + i] == g(ys[i]).value;
    }
    assert zs.value == xs;
  }

  /** The keys of the entries of an insertion-ordered dictionary. */
  function KeysOf<B>(keyOf: B -> string, entries: seq<B>): (keys: seq<string>)
    ensures |keys| == |entries|
    ensures forall i | 0 <= i < |entries| :: keys[i] == keyOf(entries[i])
  {
    seq(|entries|, i requires 0 <= i < |entries| => keyOf(entries[i]))
  }

  /** No key of `xs` is in `seen`, and no key occurs twice in `xs`. */
  predicate NewDistinctKeys<A>(key: A -> string, seen: seq<string>, xs: seq<A>) {
    && (forall i | 0 <= i < |xs| :: key(xs[i]) !in seen)
    && (forall i, j | 0 <= i < j < |xs| :: key(xs[i]) != key(xs[j]))
  }

  /** `Dictionary.Add(key(x), val(x))` for each `x` of `xs` in order, into a
      dictionary already holding `acc`: the value is computed first (and its
      failure escapes), then a key already present fails with `dup(key)`. */
  function InsertAllFrom<A, B, E>(
    keyOf: B -> string, key: A -> string, val: A -> Result<B, E>, dup: string -> E,
    acc: seq<B>, xs: seq<A>): Result<seq<B>, E>
    decreases |xs|
  {
    if xs == [] then Ok(acc)
    else if val(xs[0]).Err? then Err(val(xs[0]).error)
    else if key(xs[0]) in KeysOf(keyOf, acc) then Err(dup(key(xs[0])))
    else InsertAllFrom(keyOf, key, val, dup, acc + [val(xs[0]).value], xs[1..])
  }

  /** `InsertAllFrom` into an empty dictionary: success exactly when every
      value is computed and no key repeats, and then one entry per element,
      in order; a failure is one element's value failure or duplicate. */
  function InsertAll<A, B, E>(
    keyOf: B -> string, key: A -> string, val: A -> Result<B, E>, dup: string -> E, xs: seq<A>)
    : (r: Result<seq<B>, E>)
    requires forall i | 0 <= i < |xs| :: val(xs[i]).Ok? ==> keyOf(val(xs[i]).value) == key(xs[i])
    ensures r.Ok? <==>
      (forall i | 0 <= i < |xs| :: val(xs[i]).Ok?) && (forall i, j | 0 <= i < j < |xs| :: key(xs[i]) != key(xs[j]))
    ensures r.Ok? ==> |r.value| == |xs| && forall i | 0 <= i < |xs| :: Ok(r.value[i]) == val(xs[i])
    ensures r.Err? ==> exists k | 0 <= k < |xs| :: val(xs[k]) == Err(r.error) || r.error == dup(key(xs[k]))
  {
    InsertAllFromMeaning(keyOf, key, val, dup, [], xs);
    var r := InsertAllFrom(keyOf, key, val, dup, [], xs);
    assert r.Ok? ==> forall i | 0 <= i < |xs| :: Ok(r.value[0 + i]) == val(xs[i]);
    r
  }

  lemma NewDistinctKeysCons<A>(key: A -> string, seen: seq<string>, xs: seq<A>)
    requires xs != []
    ensures NewDistinctKeys(key, seen, xs) <==>
      key(xs[0]) !in seen && NewDistinctKeys(key, seen + [key(xs[0])], xs[1..])
  {
    var ys := xs[1..];
    assert forall i | 0 <= i < |ys| :: ys[i] == xs[i + 1];
    if NewDistinctKeys(key, seen, xs) {
      forall i | 0 <= i < |ys| ensures key(ys[i]) !in seen + [key(xs[0])] {
        assert key(xs[0]) != key(xs[i + 1]);
      }
      forall i, j | 0 <= i < j < |ys| ensures key(ys[i]) != key(ys[j]) {
        assert key(xs[i + 1]) != key(xs[j + 1]);
      }
    }
    if key(xs[0]) !in seen && NewDistinctKeys(key, seen + [key(xs[0])], ys) {
      forall i | 0 <= i < |xs| ensures key(xs[i]) !in seen {
        if i > 0 { assert key(ys[i - 1]) !in seen + [key(xs[0])]; }
      }
      forall i, j | 0 <= i < j < |xs| ensures key(xs[i]) != key(xs[j]) {
        if i == 0 {
          assert key(ys[j - 1]) !in seen + [key(xs[0])];
        } else {
          assert key(ys[i - 1]) != key(ys[j - 1]);
        }
      }
    }
  }

  /** What the insertions produce: success exactly when every value is
      computed and every key is new, and then the entries in input order
      after `acc`; a failure is the value failure or the duplicate of one of
      the elements. */
  lemma {:induction false} InsertAllFromMeaning<A, B, E>(
    keyOf: B -> string, key: A -> string, val: A -> Result<B, E>, dup: string -> E,
    acc: seq<B>, xs: seq<A>)
    requires forall i | 0 <= i < |xs| :: val(xs[i]).Ok? ==> keyOf(val(xs[i]).value) == key(xs[i])
    ensures InsertAllFrom(keyOf, key, val, dup, acc, xs).Ok? <==>
      (forall i | 0 <= i < |xs| :: val(xs[i]).Ok?) && NewDistinctKeys(key, KeysOf(keyOf, acc), xs)
    ensures InsertAllFrom(keyOf, key, val, dup, acc, xs).Ok? ==>
      var r := InsertAllFrom(keyOf, key, val, dup, acc, xs).value;
      |r| == |acc| + |xs| && r[..|acc|] == acc && forall i | 0 <= i < |xs| :: Ok(r[|acc| + i]) == val(xs[i])
    ensures InsertAllFrom(keyOf, key, val, dup, acc, xs).Err? ==>
      var e := InsertAllFrom(keyOf, key, val, dup, acc, xs).error;
      exists k | 0 <= k < |xs| :: val(xs[k]) == Err(e) || e == dup(key(xs[k]))
    decreases |xs|
  {
    if xs == [] {
      return;
    }
    NewDistinctKeysCons(key, KeysOf(keyOf, acc), xs);
    if val(xs[0]).Err? || key(xs[0]) in KeysOf(keyOf, acc) {
      return;
    }
    var v := val(xs[0]).value;
    var ys := xs[1..];
    assert forall i | 0 <= i < |ys| :: ys[i] == xs[i + 1];
    InsertAllFromMeaning(keyOf, key, val, dup, acc + [v], ys);
    assert KeysOf(keyOf, acc + [v]) == KeysOf(keyOf, acc) + [key(xs[0])];
    var r := InsertAllFrom(keyOf, key, val, dup, acc, xs);
    assert r == InsertAllFrom(keyOf, key, val, dup, acc + [v], ys);
    if r.Ok? {
      var rs := r.value;
      assert rs[..|acc|] == rs[..|acc| + 1][..|acc|];
      forall i | 0 <= i < |xs| ensures Ok(rs[|acc| + i]) == val(xs[i]) {
        if i == 0 {
          assert rs[|acc|] == rs[..|acc| + 1][|acc|];
        } else {
          assert Ok(rs[|acc| + 1 + (i - 1)]) == val(ys[i - 1]);
        }
      }
      forall i | 0 <= i < |xs| ensures val(xs[i]).Ok? {
        if i > 0 { assert val(ys[i - 1]).Ok?; }
      }
    } else {
      if forall i | 0 <= i < |xs| :: val(xs[i]).Ok? {
        assert forall i | 0 <= i < |ys| :: val(ys[i]).Ok?;
      }
      var k :| 0 <= k < |ys| && (val(ys[k]) == Err(r.error) || r.error == dup(key(ys[k])));
      assert ys[k] == xs[k + 1];
    }
  }

  /** One step of a loop specified by `InsertAllFrom`. */
  lemma InsertAllStep<A, B, E>(
    keyOf: B -> string, key: A -> string, val: A -> Result<B, E>, dup: string -> E,
    acc: seq<B>, xs: seq<A>, i: nat)
    requires i < |xs|
    ensures InsertAllFrom(keyOf, key, val, dup, acc, xs[i..]) ==
      if val(xs[i]).Err? then Err(val(xs[i]).error)
      else if key(xs[i]) in KeysOf(keyOf, acc) then Err(dup(key(xs[i])))
      else InsertAllFrom(keyOf, key, val, dup, acc + [val(xs[i]).value], xs[i + 1..])
  {
    assert xs[i..][0] == xs[i];
    assert xs[i..][1..] == xs[i + 1..];
  }
}
