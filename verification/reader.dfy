/**
 * ReadFlags: the walk over a struct that copies, into every field whose tag
 * getTag accepts, the value viper holds under the flag's name.  The struct
 * is a map from field path to value; viper's typed getters are a function
 * of the flag kind and the name.  Every method is proved to write exactly
 * the values the Walk specification names in read mode.
 */
module Reader {
  import opened Wrappers
  import opened Descriptor
  import opened Config
  import opened Tag
  import opened Walk
  import Binder

  /**
   * The struct after the read handlers for `actions` ran, in order, on
   * `values`: each one sets its field to `get(kind, name)`.
   */
  function Stored<V>(values: map<seq<nat>, V>, actions: seq<Action>, get: (FlagKind, string) -> V): map<seq<nat>, V>
    decreases |actions|
  {
    if actions == [] then values
    else
      var a := actions[|actions| - 1];
      Stored(values, actions[..|actions| - 1], get)[a.path := get(a.kind, a.tag.name)]
  }

  /** Running the handlers of two lists one after the other is running their concatenation. */
  lemma {:induction false} StoredAppend<V>(values: map<seq<nat>, V>, a: seq<Action>, b: seq<Action>, get: (FlagKind, string) -> V)
    ensures Stored(values, a + b, get) == Stored(Stored(values, a, get), b, get)
    decreases |b|
  {
    if b == [] {
      assert a + b == a;
    } else {
      assert (a + b)[..|a + b| - 1] == a + b[..|b| - 1];
      StoredAppend(values, a, b[..|b| - 1], get);
    }
  }

  /** A field that no handler writes keeps what it held. */
  lemma {:induction false} StoredUntouched<V>(values: map<seq<nat>, V>, actions: seq<Action>, get: (FlagKind, string) -> V, p: seq<nat>)
    requires forall j :: 0 <= j < |actions| ==> actions[j].path != p
    ensures var r := Stored(values, actions, get);
      (p in r <==> p in values) && (p in values ==> r[p] == values[p])
    decreases |actions|
  {
    if actions != [] {
      var init := actions[..|actions| - 1];
      assert forall j :: 0 <= j < |init| ==> init[j] == actions[j];
      StoredUntouched(values, init, get, p);
    }
  }

  /** A field holds the value viper gives for the last handler that writes it. */
  lemma {:induction false} StoredLastWrite<V>(values: map<seq<nat>, V>, actions: seq<Action>, get: (FlagKind, string) -> V, j: nat)
    requires j < |actions| && forall k :: j < k < |actions| ==> actions[k].path != actions[j].path
    ensures var r := Stored(values, actions, get);
      actions[j].path in r && r[actions[j].path] == get(actions[j].kind, actions[j].tag.name)
    decreases |actions|
  {
    var init := actions[..|actions| - 1];
    if j < |actions| - 1 {
      assert forall k :: 0 <= k < |init| ==> init[k] == actions[k];
      StoredLastWrite(values, init, get, j);
    }
  }

  /** The struct ReadFlags writes into, one value per field path. */
  class Target<V> {
    var values: map<seq<nat>, V>

    constructor (values0: map<seq<nat>, V>)
      ensures values == values0
    {
      values := values0;
    }

    /** fValue.Set on the field at `path`. */
    method Set(path: seq<nat>, v: V)
      modifies this
      ensures values == old(values)[path := v]
    {
      values := values[path := v];
    }
  }

  /** The struct after the handlers for `next` ran on it is the struct after those for `done` and `next`. */
  lemma ExtendStored<V>(base: map<seq<nat>, V>, done: seq<Action>, next: seq<Action>, get: (FlagKind, string) -> V, values: map<seq<nat>, V>)
    requires values == Stored(Stored(base, done, get), next, get)
    ensures values == Stored(base, done + next, get)
  {
    StoredAppend(base, done, next, get);
  }

  lemma StoredSingle<V>(values: map<seq<nat>, V>, a: Action, get: (FlagKind, string) -> V)
    ensures Stored(values, [a], get) == values[a.path := get(a.kind, a.tag.name)]
  {
    assert [a][..0] == [];
  }

  /**
   * ReadFlags: the configuration from the options, then readFlags on `v0`,
   * which must point to a struct, from an empty parent stack.
   */
  method ReadFlags<V>(target: Target<V>, v0: Kind, opts: seq<FlagOption>, get: (FlagKind, string) -> V) returns (err: Option<FlagError>)
    requires PointsToStruct(v0) && FieldsParse(ApplyAll(Defaults, opts), v0.pointee.value.fields, 0)
    modifies target
    ensures var r := WalkFrom(Read, ApplyAll(Defaults, opts), v0.pointee.value.fields, 0, [], []);
      err == r.err && target.values == Stored(old(target.values), r.actions, get)
  {
    var cfg := new FlagConfig(opts);
    err := ReadFields(target, v0.pointee.value.fields, [], cfg, get);
  }

  /** The loop of readFlags over the fields of the struct, stopping at the first error. */
  method ReadFields<V>(target: Target<V>, fs: seq<Field>, path: seq<nat>, cfg: FlagConfig, get: (FlagKind, string) -> V)
    returns (err: Option<FlagError>)
    requires FieldsParse(cfg.Options(), fs, 0)
    modifies target, cfg`parent
    ensures var r := WalkFrom(Read, cfg.Options(), fs, 0, path, old(cfg.parent));
      err == r.err && target.values == Stored(old(target.values), r.actions, get) && cfg.parent == r.parent
    decreases FieldsSize(fs), 5
  {
    ghost var o := cfg.Options();
    ghost var final := WalkFrom(Read, o, fs, 0, path, cfg.parent);
    ghost var done: seq<Action> := [];
    assert After([], final) == final;
    var i := 0;
    while i < |fs|
      invariant i <= |fs| && FieldsParse(o, fs, i) && cfg.Options() == o
      invariant target.values == Stored(old(target.values), done, get)
      invariant final == After(done, WalkFrom(Read, o, fs, i, path, cfg.parent))
    {
      ghost var next;
      err, next := ReadNext(target, fs, i, path, cfg, get, old(target.values), done);
      if err.Some? {
        return;
      }
      done := next;
      i := i + 1;
    }
    assert WalkFrom(Read, o, fs, i, path, cfg.parent).actions == [];
    assert done + [] == done;
    err := None;
  }

  /** One turn of the loop of readFlags: the field at `i` is read. */
  method ReadNext<V>(target: Target<V>, fs: seq<Field>, i: nat, path: seq<nat>, cfg: FlagConfig, get: (FlagKind, string) -> V,
                     ghost base: map<seq<nat>, V>, ghost done: seq<Action>)
    returns (err: Option<FlagError>, ghost next: seq<Action>)
    requires i < |fs| && FieldsParse(cfg.Options(), fs, i)
    requires target.values == Stored(base, done, get)
    modifies target, cfg`parent
    ensures cfg.Options() == old(cfg.Options()) && FieldsParse(cfg.Options(), fs, i + 1)
    ensures target.values == Stored(base, next, get)
    ensures var r := After(done, WalkFrom(Read, cfg.Options(), fs, i, path, old(cfg.parent)));
      if err.Some? then r == Outcome(next, err, cfg.parent)
      else r == After(next, WalkFrom(Read, cfg.Options(), fs, i + 1, path, cfg.parent))
    decreases FieldsSize(fs), 4
  {
    var k := FieldOf(fs, i);
    FieldsParseHead(cfg.Options(), fs, i);
    WalkFromStep(Read, cfg.Options(), fs, i, path, cfg.parent, done);
    ghost var head := WalkField(Read, cfg.Options(), fs[i], path + [i], cfg.parent);
    err := ReadField(target, fs[i], path + [i], cfg, get);
    ExtendStored(base, done, head.actions, get, target.values);
    next := done + head.actions;
  }

  /** The loop body of readFlags for one field: skip it when getTag rejects it, else the switch on its kind. */
  method ReadField<V>(target: Target<V>, f: Field, path: seq<nat>, cfg: FlagConfig, get: (FlagKind, string) -> V)
    returns (err: Option<FlagError>)
    requires FieldParses(cfg.Options(), f)
    modifies target, cfg`parent
    ensures var r := WalkField(Read, cfg.Options(), f, path, old(cfg.parent));
      err == r.err && target.values == Stored(old(target.values), r.actions, get) && cfg.parent == r.parent
    decreases KindSize(f.kind), 3
  {
    var data := GetTag(f, cfg);
    if data.None? {
      return None;
    }
    TagOfParentIndependent(f, cfg.Options(), cfg.parent, []);
    assert WalkField(Read, cfg.Options(), f, path, cfg.parent) == Dispatch(Read, cfg.Options(), f, path, cfg.parent);
    err := ReadKind(target, f, path, cfg, get);
  }

  /** The switch of readFlags on the kind of a field that getTag accepted. */
  method ReadKind<V>(target: Target<V>, f: Field, path: seq<nat>, cfg: FlagConfig, get: (FlagKind, string) -> V)
    returns (err: Option<FlagError>)
    requires TagParses(f, cfg.Options()) && KindParses(cfg.Options(), f.kind) && TagOf(f, cfg.Options(), cfg.parent).Some?
    modifies target, cfg`parent
    ensures var r := Dispatch(Read, cfg.Options(), f, path, old(cfg.parent));
      err == r.err && target.values == Stored(old(target.values), r.actions, get) && cfg.parent == r.parent
    decreases KindSize(f.kind), 2
  {
    if f.kind.Struct? {
      err := ReadStruct(target, f, path, cfg, get);
    } else if f.kind.Pointer? {
      err := ReadStructPtr(target, f, path, cfg, get);
    } else if f.kind.Other? {
      err := Some(UnsupportedType(f.name));
    } else {
      err := ReadValue(target, f, path, cfg, get);
    }
  }

  /** The cases of the switch of readFlags that set a field: slices, int64 and the scalar kinds. */
  method ReadValue<V>(target: Target<V>, f: Field, path: seq<nat>, cfg: FlagConfig, get: (FlagKind, string) -> V)
    returns (err: Option<FlagError>)
    requires !f.kind.Struct? && !f.kind.Pointer? && !f.kind.Other?
    requires TagParses(f, cfg.Options()) && TagOf(f, cfg.Options(), cfg.parent).Some?
    modifies target
    ensures var r := Dispatch(Read, cfg.Options(), f, path, cfg.parent);
      err == r.err && target.values == Stored(old(target.values), r.actions, get)
  {
    if f.kind.Slice? {
      err := ReadSlice(target, f, path, cfg, get);
    } else {
      var kind := LeafKind(f.kind).value;
      assert Dispatch(Read, cfg.Options(), f, path, cfg.parent) == Leaf(cfg.Options(), f, kind, path, cfg.parent);
      if f.kind.Int64? {
        ReadInt64(target, f, path, cfg, get);
      } else {
        ReadScalar(target, f, kind, path, cfg, get);
      }
      err := None;
    }
  }

  /** readStruct: read the embedded or nested struct through its address, then the deferred pop. */
  method ReadStruct<V>(target: Target<V>, f: Field, path: seq<nat>, cfg: FlagConfig, get: (FlagKind, string) -> V)
    returns (err: Option<FlagError>)
    requires f.kind.Struct? && TagParses(f, cfg.Options()) && KindParses(cfg.Options(), f.kind)
    modifies target, cfg`parent
    ensures var r := Dispatch(Read, cfg.Options(), f, path, old(cfg.parent));
      err == r.err && target.values == Stored(old(target.values), r.actions, get) && cfg.parent == r.parent
    decreases KindSize(f.kind), 1
  {
    err := ReadFields(target, f.kind.fields, path, cfg, get);
    RevertAnonymousParentPrefix(f, cfg);
  }

  /** readStructPtr: a nil pointer and a pointer to a non-struct are errors; the pop runs in every case. */
  method ReadStructPtr<V>(target: Target<V>, f: Field, path: seq<nat>, cfg: FlagConfig, get: (FlagKind, string) -> V)
    returns (err: Option<FlagError>)
    requires f.kind.Pointer? && TagParses(f, cfg.Options()) && KindParses(cfg.Options(), f.kind)
    modifies target, cfg`parent
    ensures var r := Dispatch(Read, cfg.Options(), f, path, old(cfg.parent));
      err == r.err && target.values == Stored(old(target.values), r.actions, get) && cfg.parent == r.parent
    decreases KindSize(f.kind), 1
  {
    var p := f.kind.pointee;
    if p.None? {
      err := Some(NilPointer(f.name));
    } else if !p.value.Struct? {
      err := Some(UnsupportedPointee(f.name));
    } else {
      assert KindSize(p.value) == 1 + FieldsSize(p.value.fields);
      err := ReadFields(target, p.value.fields, path, cfg, get);
    }
    RevertAnonymousParentPrefix(f, cfg);
  }

  /** readSlice: []string and []int have handlers; any other element kind is an error. */
  method ReadSlice<V>(target: Target<V>, f: Field, path: seq<nat>, cfg: FlagConfig, get: (FlagKind, string) -> V)
    returns (err: Option<FlagError>)
    requires f.kind.Slice? && TagParses(f, cfg.Options()) && TagOf(f, cfg.Options(), cfg.parent).Some?
    modifies target
    ensures var r := Dispatch(Read, cfg.Options(), f, path, cfg.parent);
      err == r.err && target.values == Stored(old(target.values), r.actions, get)
  {
    match f.kind.elem {
      case String =>
        ReadScalar(target, f, StringSliceFlag, path, cfg, get);
        err := None;
      case Int =>
        ReadScalar(target, f, IntSliceFlag, path, cfg, get);
        err := None;
      case _ =>
        err := Some(UnsupportedSlice(f.name));
    }
  }

  /**
   * readString, readBool, readInt, readInt32, readFloat32, readFloat64,
   * readStringSlice, readIntSlice: getTag again, then the field is set to
   * viper's value of the flag's kind under the tag's name.
   */
  method ReadScalar<V>(target: Target<V>, f: Field, kind: FlagKind, path: seq<nat>, cfg: FlagConfig, get: (FlagKind, string) -> V)
    requires TagParses(f, cfg.Options()) && TagOf(f, cfg.Options(), cfg.parent).Some?
    modifies target
    ensures target.values == Stored(old(target.values), [Action(kind, TagOf(f, cfg.Options(), cfg.parent).value, path)], get)
  {
    var tag := GetTag(f, cfg);
    StoredSingle(target.values, Action(kind, tag.value, path), get);
    target.Set(path, get(kind, tag.value.name));
  }

  /** readInt64: a time.Duration field takes viper's duration, any other int64 field viper's int64. */
  method ReadInt64<V>(target: Target<V>, f: Field, path: seq<nat>, cfg: FlagConfig, get: (FlagKind, string) -> V)
    requires f.kind.Int64? && TagParses(f, cfg.Options()) && TagOf(f, cfg.Options(), cfg.parent).Some?
    modifies target
    ensures var kind := if f.kind.isDuration then DurationFlag else Int64Flag;
      target.values == Stored(old(target.values), [Action(kind, TagOf(f, cfg.Options(), cfg.parent).value, path)], get)
  {
    if f.kind.isDuration {
      ReadScalar(target, f, DurationFlag, path, cfg, get);
    } else {
      ReadScalar(target, f, Int64Flag, path, cfg, get);
    }
  }

  /**
   * With squash on (the default), ReadFlags hands every field the value viper
   * holds under the name, and of the kind, that BindFlags registered for it.
   */
  lemma ReadsWhatWasRegistered<V>(o: TagOptions, fs: seq<Field>, values: map<seq<nat>, V>, get: (FlagKind, string) -> V, j: nat)
    requires o.squash && FieldsParse(o, fs, 0)
    requires j < |WalkFrom(Bind, o, fs, 0, [], []).actions|
    ensures var reg := Binder.Registrations(WalkFrom(Bind, o, fs, 0, [], []).actions)[j];
      var stored := Stored(values, WalkFrom(Read, o, fs, 0, [], []).actions, get);
      reg.dest in stored && stored[reg.dest] == get(reg.kind, reg.name)
  {
    var actions := WalkFrom(Read, o, fs, 0, [], []).actions;
    SquashedBindIsRead(o, fs, 0, [], []);
    WalkFromPaths(Read, o, fs, 0, [], []);
    StoredLastWrite(values, actions, get, j);
  }
}
