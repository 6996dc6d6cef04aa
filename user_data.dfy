/**
 * `UserInfoImpl`: the per-user data cache. A key is materialised by a
 * caller-supplied factory the first time it is asked for; once the owner is
 * disposed nothing new is materialised and anything still stored is released.
 *
 * Values are opaque objects. `released` records, in order, every (key, value)
 * handed to `DisposeUserData`, which disposes a value when it is disposable.
 */
module UserData {

  /** The cache's state as a value: stored data, disposed flag, release log. */
  datatype CacheState = CacheState(data: map<string, object?>, disposed: bool, released: seq<(string, object?)>)

  /** The result of one get-or-add: the new state, the value returned, and whether the factory ran. */
  datatype Fetch = Fetch(state: CacheState, value: object?, invoked: bool)

  /**
   * `GetOrAddUserData`: on a live cache, a stored key is returned without
   * calling the factory and a missing key is materialised by one factory call;
   * on a disposed cache, any value under the key is removed and released, the
   * default (null) is returned, and the factory is not called.
   */
  function GetOrAdd(st: CacheState, key: string, factory: string -> object?): (r: Fetch)
    ensures r.invoked <==> !st.disposed && key !in st.data
    ensures r.invoked ==> r.value == factory(key)
    ensures !st.disposed ==> key in r.state.data && r.value == r.state.data[key]
    ensures !st.disposed && key in st.data ==> r.value == st.data[key] && r.state == st
    ensures st.disposed ==> r.value == null && r.state.data == st.data - {key}
    ensures r.state.disposed == st.disposed
    ensures forall k :: k != key ==> (k in r.state.data <==> k in st.data)
    ensures forall k :: k != key && k in st.data ==> r.state.data[k] == st.data[k]
    ensures st.disposed && key in st.data ==> r.state.released == st.released + [(key, st.data[key])]
    ensures !(st.disposed && key in st.data) ==> r.state.released == st.released
  {
    if st.disposed then
      if key in st.data then
        Fetch(CacheState(st.data - {key}, true, st.released + [(key, st.data[key])]), null, false)
      else
        Fetch(st, null, false)
    else if key in st.data then
      Fetch(st, st.data[key], false)
    else
      var v := factory(key);
      Fetch(st.(data := st.data[key := v]), v, true)
  }

  /**
   * Single materialisation: two requests for the same key on a live cache run
   * the factory at most once and return the same value.
   */
  lemma GetOrAddMaterializesOnce(st: CacheState, key: string, f: string -> object?, g: string -> object?)
    requires !st.disposed
    ensures var first := GetOrAdd(st, key, f);
      var second := GetOrAdd(first.state, key, g);
      && !second.invoked
      && second.value == first.value
      && second.state == first.state
  {
  }

  /**
   * Once disposed, a cache never runs a factory again and always answers null,
   * whatever keys and factories are used.
   */
  lemma {:induction false} DisposedNeverMaterializes(st: CacheState, keys: seq<string>, f: string -> object?)
    requires st.disposed
    ensures var r := GetOrAddAll(st, keys, f);
      && r.state.disposed
      && (forall i :: 0 <= i < |r.values| ==> r.values[i] == null)
      && !r.anyInvoked
    decreases |keys|
  {
    if keys != [] {
      DisposedNeverMaterializes(GetOrAdd(st, keys[0], f).state, keys[1..], f);
    }
  }

  /** The results of a series of get-or-add calls. */
  datatype Series = Series(state: CacheState, values: seq<object?>, anyInvoked: bool)

  /** Runs `GetOrAdd` for each key in turn, collecting the answers. */
  function GetOrAddAll(st: CacheState, keys: seq<string>, f: string -> object?): (r: Series)
    ensures |r.values| == |keys|
    ensures r.state.disposed == st.disposed
    decreases |keys|
  {
    if keys == [] then Series(st, [], false)
    else
      var first := GetOrAdd(st, keys[0], f);
      var rest := GetOrAddAll(first.state, keys[1..], f);
      Series(rest.state, [first.value] + rest.values, first.invoked || rest.anyInvoked)
  }

  /**
   * `log` releases each entry of `m` exactly once: every logged pair is an
   * entry of `m`, no key is logged twice, and every key of `m` is logged.
   */
  ghost predicate DrainedFrom(log: seq<(string, object?)>, m: map<string, object?>) {
    && (forall i :: 0 <= i < |log| ==> log[i].0 in m && m[log[i].0] == log[i].1)
    && (forall i, j :: 0 <= i < j < |log| ==> log[i].0 != log[j].0)
    && (forall k :: k in m ==> exists i :: 0 <= i < |log| && log[i].0 == k)
  }

  /** Releasing one more entry, under a fresh key, extends a drain. */
  lemma DrainedFromExtend(log: seq<(string, object?)>, m: map<string, object?>, k: string, v: object?)
    requires DrainedFrom(log, m) && k !in m
    ensures DrainedFrom(log + [(k, v)], m[k := v])
  {
    var log' := log + [(k, v)];
    var m' := m[k := v];
    forall k' | k' in m' ensures exists i :: 0 <= i < |log'| && log'[i].0 == k' {
      if k' == k {
        assert log'[|log|].0 == k;
      } else {
        var i :| 0 <= i < |log| && log[i].0 == k';
        assert log'[i] == log[i];
      }
    }
  }

  /**
   * What `Dispose` does to a cache: it ends disposed; a cache disposed before
   * is left as it was; otherwise its data is drained, every entry released
   * exactly once after what was released before.
   */
  ghost predicate DisposalOf(before: CacheState, after: CacheState) {
    && after.disposed
    && (before.disposed ==> after == before)
    && (!before.disposed ==>
        && after.data == map[]
        && |after.released| == |before.released| + |before.data|
        && after.released[..|before.released|] == before.released
        && DrainedFrom(after.released[|before.released|..], before.data))
  }

  /** A drain of `m` releases exactly `|m|` values. */
  lemma {:induction false} DrainedFromLength(log: seq<(string, object?)>, m: map<string, object?>)
    requires DrainedFrom(log, m)
    ensures |log| == |m|
  {
    if log == [] {
      assert forall k :: k !in m;
      assert m.Keys == {};
    } else {
      var k := log[0].0;
      var m' := m - {k};
      forall i | 0 <= i < |log[1..]| ensures log[1..][i].0 in m' && m'[log[1..][i].0] == log[1..][i].1 {
        assert log[1..][i] == log[i + 1];
      }
      forall i, j | 0 <= i < j < |log[1..]| ensures log[1..][i].0 != log[1..][j].0 {
        assert log[1..][i] == log[i + 1] && log[1..][j] == log[j + 1];
      }
      forall k' | k' in m' ensures exists i :: 0 <= i < |log[1..]| && log[1..][i].0 == k' {
        var i :| 0 <= i < |log| && log[i].0 == k';
        assert i != 0;
        assert log[1..][i - 1] == log[i];
      }
      DrainedFromLength(log[1..], m');
    }
  }

  /**
   * `UserInfoImpl`. The fields are the cache's state; the lock of the source
   * disappears in this sequential model, so its locked re-check collapses into
   * the first check.
   */
  class UserInfo {
    const id: string
    var data: map<string, object?>
    var disposed: bool
    var released: seq<(string, object?)>

    /** The state as a value. */
    function State(): CacheState reads this {
      CacheState(data, disposed, released)
    }

    /** A disposed cache holds nothing. */
    ghost predicate Valid() reads this {
      disposed ==> data == map[]
    }

    constructor (id: string)
      ensures this.id == id && data == map[] && !disposed && released == []
      ensures Valid()
    {
      this.id := id;
      data := map[];
      disposed := false;
      released := [];
    }

    /** `GetOrAddUserData`, returning also whether the factory ran. */
    method GetOrAddUserData(key: string, factory: string -> object?) returns (r: object?, invoked: bool)
      modifies this
      ensures var f := GetOrAdd(old(State()), key, factory);
        State() == f.state && r == f.value && invoked == f.invoked
      ensures old(Valid()) ==> Valid()
    {
      invoked := false;
      if disposed {
        // The user has been logged out: release the value if it is still here.
        if key in data {
          released := released + [(key, data[key])];
          data := data - {key};
        }
        r := null;
      } else if key in data {
        r := data[key];
      } else {
        r := factory(key);
        invoked := true;
        data := data[key := r];
      }
    }

    /**
     * `Dispose`: the first call marks the cache disposed and drains it,
     * releasing every entry exactly once; later calls do nothing.
     */
    method Dispose()
      modifies this
      ensures DisposalOf(old(State()), State())
      ensures old(Valid()) ==> Valid()
    {
      if !disposed {
        disposed := true;
        ghost var start := |released|;
        ghost var gone: map<string, object?> := map[];
        while data != map[]
          invariant disposed
          invariant |released| >= start && released[..start] == old(released)
          invariant data.Keys !! gone.Keys
          invariant forall k :: k in old(data) <==> k in data || k in gone
          invariant forall k :: k in data ==> data[k] == old(data)[k]
          invariant forall k :: k in gone ==> gone[k] == old(data)[k]
          invariant DrainedFrom(released[start..], gone)
          decreases |data|
        {
          var k :| k in data;
          DrainedFromExtend(released[start..], gone, k, data[k]);
          assert (released + [(k, data[k])])[start..] == released[start..] + [(k, data[k])];
          gone := gone[k := data[k]];
          released := released + [(k, data[k])];
          data := data - {k};
        }
        assert gone == old(data);
        DrainedFromLength(released[start..], old(data));
      }
    }
  }
}
