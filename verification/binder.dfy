/**
 * BindFlags: the walk over a struct that registers one pflag flag per
 * supported field.  The flag set is a list of registrations (kind, name,
 * shorthand, typed default, description, destination field); every method
 * is proved to register exactly the flags of the Walk specification in bind
 * mode, to return its error and to leave the parent stack where it says.
 */
module Binder {
  import opened Wrappers
  import opened Descriptor
  import opened Config
  import opened Tag
  import opened Walk
  import GoStrings
  import Stringx

  /** The default value handed to pflag, converted from the tag's `default:` text. */
  datatype DefaultValue =
    | Text(s: string)
    | Truth(b: bool)
    | Number(n: int)
    | Texts(ss: seq<string>)
    | Numbers(ns: seq<int>)
    | DurationText(d: string)   // time.ParseDuration of this text
    | FloatText(f: string)      // stringx.Atof of this text

  /** One *VarP call on the flag flagSet. */
  datatype Registration = Registration(kind: FlagKind, name: string, short: string, default: DefaultValue, desc: string, dest: seq<nat>)

  /**
   * The default each handler passes to pflag: the text itself for strings,
   * ToBool for bools, Atoi at the field's width for integers (int is 64-bit),
   * stringx.Split on "," for string slices and AtoSlice on "," for int slices.
   */
  function DefaultOf(kind: FlagKind, d: string): DefaultValue
  {
    match kind
    case StringFlag => Text(d)
    case BoolFlag => Truth(Stringx.ToBool(d))
    case IntFlag => Number(Stringx.Atoi(d, 64))
    case Int32Flag => Number(Stringx.Atoi(d, 32))
    case Int64Flag => Number(Stringx.Atoi(d, 64))
    case DurationFlag => DurationText(d)
    case Float32Flag => FloatText(d)
    case Float64Flag => FloatText(d)
    case StringSliceFlag => Texts(Stringx.TrimmedSplit(d, ","))
    case IntSliceFlag => Numbers(Stringx.AtoiPieces(d, ",", 64))
  }

  function RegistrationOf(a: Action): Registration
  {
    Registration(a.kind, a.tag.name, a.tag.short, DefaultOf(a.kind, a.tag.default), a.tag.desc, a.path)
  }

  /** The registrations made for the flags the walk handles, in order. */
  function Registrations(actions: seq<Action>): (r: seq<Registration>)
    ensures |r| == |actions|
    ensures forall k :: 0 <= k < |r| ==> r[k] == RegistrationOf(actions[k])
  {
    if actions == [] then [] else [RegistrationOf(actions[0])] + Registrations(actions[1..])
  }

  lemma {:induction false} RegistrationsAppend(a: seq<Action>, b: seq<Action>)
    ensures Registrations(a + b) == Registrations(a) + Registrations(b)
    decreases |a|
  {
    if a == [] {
      assert a + b == b;
    } else {
      assert (a + b)[1..] == a[1..] + b;
      RegistrationsAppend(a[1..], b);
    }
  }

  lemma RegistrationsSingle(a: Action)
    ensures Registrations([a]) == [RegistrationOf(a)]
  {
    assert [a][1..] == [];
  }

  /** Registrations already in the set, followed by those of the next field, are those of both fields together. */
  lemma ExtendFlags(base: seq<Registration>, done: seq<Action>, next: seq<Action>, flags: seq<Registration>)
    requires flags == base + Registrations(done) + Registrations(next)
    ensures flags == base + Registrations(done + next)
  {
    RegistrationsAppend(done, next);
  }

  /** The pflag flag set of the command. */
  class FlagSet {
    var flags: seq<Registration>

    constructor ()
      ensures flags == []
    {
      flags := [];
    }

    /** One *VarP call: the flag is appended to the flagSet. */
    method Register(r: Registration)
      modifies this
      ensures flags == old(flags) + [r]
    {
      flags := flags + [r];
    }
  }

  /**
   * BindFlags: the configuration from the options, then bindFlags on `v0`
   * from an empty parent stack.  The registrations are exactly those of the
   * bind walk, and the error is the walk's.
   */
  method BindFlags(flagSet: FlagSet, v0: Kind, opts: seq<FlagOption>) returns (err: Option<FlagError>)
    requires v0.Pointer? ==> PointsToStruct(v0) && FieldsParse(ApplyAll(Defaults, opts), v0.pointee.value.fields, 0)
    modifies flagSet
    ensures var r := BindTop(ApplyAll(Defaults, opts), v0, []);
      err == r.err && flagSet.flags == old(flagSet.flags) + Registrations(r.actions)
  {
    var cfg := new FlagConfig(opts);
    err := BindPointer(flagSet, v0, [], cfg);
  }

  /** bindFlags: reject a value that is not a pointer, then bind the fields of the struct it points to, in order. */
  method BindPointer(flagSet: FlagSet, v0: Kind, path: seq<nat>, cfg: FlagConfig) returns (err: Option<FlagError>)
    requires v0.Pointer? ==> PointsToStruct(v0) && FieldsParse(cfg.Options(), v0.pointee.value.fields, 0)
    modifies flagSet, cfg`parent
    ensures var r := if !v0.Pointer? then Outcome([], Some(NotPointer), old(cfg.parent))
                     else WalkFrom(Bind, cfg.Options(), v0.pointee.value.fields, 0, path, old(cfg.parent));
      err == r.err && flagSet.flags == old(flagSet.flags) + Registrations(r.actions) && cfg.parent == r.parent
    decreases if PointsToStruct(v0) then FieldsSize(v0.pointee.value.fields) else 0, 6
  {
    if !v0.Pointer? {
      return Some(NotPointer);
    }
    err := BindFields(flagSet, v0.pointee.value.fields, path, cfg);
  }

  /** The loop of bindFlags over the fields of the struct, stopping at the first error. */
  method BindFields(flagSet: FlagSet, fs: seq<Field>, path: seq<nat>, cfg: FlagConfig) returns (err: Option<FlagError>)
    requires FieldsParse(cfg.Options(), fs, 0)
    modifies flagSet, cfg`parent
    ensures var r := WalkFrom(Bind, cfg.Options(), fs, 0, path, old(cfg.parent));
      err == r.err && flagSet.flags == old(flagSet.flags) + Registrations(r.actions) && cfg.parent == r.parent
    decreases FieldsSize(fs), 5
  {
    ghost var o := cfg.Options();
    ghost var final := WalkFrom(Bind, o, fs, 0, path, cfg.parent);
    ghost var done: seq<Action> := [];
    assert After([], final) == final;
    var i := 0;
    while i < |fs|
      invariant i <= |fs| && FieldsParse(o, fs, i) && cfg.Options() == o
      invariant flagSet.flags == old(flagSet.flags) + Registrations(done)
      invariant final == After(done, WalkFrom(Bind, o, fs, i, path, cfg.parent))
    {
      ghost var next;
      err, next := BindNext(flagSet, fs, i, path, cfg, old(flagSet.flags), done);
      if err.Some? {
        return;
      }
      done := next;
      i := i + 1;
    }
    assert WalkFrom(Bind, o, fs, i, path, cfg.parent).actions == [];
    assert done + [] == done;
    err := None;
  }

  /**
   * One turn of the loop of bindFlags: the field at `i` is bound, and the
   * flags registered so far are those of the fields before it and of it.
   */
  method BindNext(flagSet: FlagSet, fs: seq<Field>, i: nat, path: seq<nat>, cfg: FlagConfig,
                  ghost base: seq<Registration>, ghost done: seq<Action>)
    returns (err: Option<FlagError>, ghost next: seq<Action>)
    requires i < |fs| && FieldsParse(cfg.Options(), fs, i)
    requires flagSet.flags == base + Registrations(done)
    modifies flagSet, cfg`parent
    ensures cfg.Options() == old(cfg.Options()) && FieldsParse(cfg.Options(), fs, i + 1)
    ensures flagSet.flags == base + Registrations(next)
    ensures var r := After(done, WalkFrom(Bind, cfg.Options(), fs, i, path, old(cfg.parent)));
      if err.Some? then r == Outcome(next, err, cfg.parent)
      else r == After(next, WalkFrom(Bind, cfg.Options(), fs, i + 1, path, cfg.parent))
    decreases FieldsSize(fs), 4
  {
    var k := FieldOf(fs, i);
    FieldsParseHead(cfg.Options(), fs, i);
    WalkFromStep(Bind, cfg.Options(), fs, i, path, cfg.parent, done);
    ghost var head := WalkField(Bind, cfg.Options(), fs[i], path + [i], cfg.parent);
    err := BindField(flagSet, fs[i], path + [i], cfg);
    ExtendFlags(base, done, head.actions, flagSet.flags);
    next := done + head.actions;
  }

  /** The loop body of bindFlags for one field: parseTag, then the switch on the field's kind. */
  method BindField(flagSet: FlagSet, f: Field, path: seq<nat>, cfg: FlagConfig) returns (err: Option<FlagError>)
    requires FieldParses(cfg.Options(), f)
    modifies flagSet, cfg`parent
    ensures var r := WalkField(Bind, cfg.Options(), f, path, old(cfg.parent));
      err == r.err && flagSet.flags == old(flagSet.flags) + Registrations(r.actions) && cfg.parent == r.parent
    decreases KindSize(f.kind), 3
  {
    ghost var before := cfg.parent;
    var data := ParseTag(f, cfg);
    if data.None? {
      return None;
    }
    TagOfParentIndependent(f, cfg.Options(), before, []);
    TagOfParentIndependent(f, cfg.Options(), before, cfg.parent);
    assert WalkField(Bind, cfg.Options(), f, path, before) == Dispatch(Bind, cfg.Options(), f, path, cfg.parent);
    err := BindKind(flagSet, f, path, cfg);
  }

  /** The switch of bindFlags on the kind of a field whose tag has been parsed. */
  method BindKind(flagSet: FlagSet, f: Field, path: seq<nat>, cfg: FlagConfig) returns (err: Option<FlagError>)
    requires TagParses(f, cfg.Options()) && KindParses(cfg.Options(), f.kind) && TagOf(f, cfg.Options(), cfg.parent).Some?
    modifies flagSet, cfg`parent
    ensures var r := Dispatch(Bind, cfg.Options(), f, path, old(cfg.parent));
      err == r.err && flagSet.flags == old(flagSet.flags) + Registrations(r.actions) && cfg.parent == r.parent
    decreases KindSize(f.kind), 2
  {
    if f.kind.Struct? {
      err := BindStruct(flagSet, f, path, cfg);
    } else if f.kind.Pointer? {
      err := BindStructPtr(flagSet, f, path, cfg);
    } else if f.kind.Other? {
      err := Some(UnsupportedType(f.name));
    } else {
      err := BindValue(flagSet, f, path, cfg);
    }
  }

  /** The cases of the switch of bindFlags that register a flag: slices, int64 and the scalar kinds. */
  method BindValue(flagSet: FlagSet, f: Field, path: seq<nat>, cfg: FlagConfig) returns (err: Option<FlagError>)
    requires !f.kind.Struct? && !f.kind.Pointer? && !f.kind.Other?
    requires TagParses(f, cfg.Options()) && TagOf(f, cfg.Options(), cfg.parent).Some?
    modifies flagSet
    ensures var r := Dispatch(Bind, cfg.Options(), f, path, cfg.parent);
      err == r.err && flagSet.flags == old(flagSet.flags) + Registrations(r.actions)
  {
    if f.kind.Slice? {
      err := BindSlice(flagSet, f, path, cfg);
    } else if f.kind.Int64? {
      assert Dispatch(Bind, cfg.Options(), f, path, cfg.parent) == Leaf(cfg.Options(), f, LeafKind(f.kind).value, path, cfg.parent);
      BindInt64(flagSet, f, path, cfg);
      err := None;
    } else {
      var kind := LeafKind(f.kind).value;
      assert Dispatch(Bind, cfg.Options(), f, path, cfg.parent) == Leaf(cfg.Options(), f, kind, path, cfg.parent);
      BindScalar(flagSet, f, kind, path, cfg);
      err := None;
    }
  }

  /** bindStruct: bind the embedded or nested struct through its address, then the deferred pop. */
  method BindStruct(flagSet: FlagSet, f: Field, path: seq<nat>, cfg: FlagConfig) returns (err: Option<FlagError>)
    requires f.kind.Struct? && TagParses(f, cfg.Options()) && KindParses(cfg.Options(), f.kind)
    modifies flagSet, cfg`parent
    ensures var r := Dispatch(Bind, cfg.Options(), f, path, old(cfg.parent));
      err == r.err && flagSet.flags == old(flagSet.flags) + Registrations(r.actions) && cfg.parent == r.parent
    decreases KindSize(f.kind), 1
  {
    err := BindPointer(flagSet, Pointer(Some(f.kind)), path, cfg);
    RevertAnonymousParentPrefix(f, cfg);
  }

  /** bindStructPtr: a nil pointer and a pointer to a non-struct are errors; the pop runs in every case. */
  method BindStructPtr(flagSet: FlagSet, f: Field, path: seq<nat>, cfg: FlagConfig) returns (err: Option<FlagError>)
    requires f.kind.Pointer? && TagParses(f, cfg.Options()) && KindParses(cfg.Options(), f.kind)
    modifies flagSet, cfg`parent
    ensures var r := Dispatch(Bind, cfg.Options(), f, path, old(cfg.parent));
      err == r.err && flagSet.flags == old(flagSet.flags) + Registrations(r.actions) && cfg.parent == r.parent
    decreases KindSize(f.kind), 1
  {
    var p := f.kind.pointee;
    if p.None? {
      err := Some(NilPointer(f.name));
    } else if !p.value.Struct? {
      err := Some(UnsupportedPointee(f.name));
    } else {
      assert KindSize(p.value) == 1 + FieldsSize(p.value.fields);
      err := BindPointer(flagSet, f.kind, path, cfg);
    }
    RevertAnonymousParentPrefix(f, cfg);
  }

  /** bindSlice: []string and []int have handlers; any other element kind is an error. */
  method BindSlice(flagSet: FlagSet, f: Field, path: seq<nat>, cfg: FlagConfig) returns (err: Option<FlagError>)
    requires f.kind.Slice? && TagParses(f, cfg.Options()) && TagOf(f, cfg.Options(), cfg.parent).Some?
    modifies flagSet
    ensures var r := Dispatch(Bind, cfg.Options(), f, path, cfg.parent);
      err == r.err && flagSet.flags == old(flagSet.flags) + Registrations(r.actions)
  {
    match f.kind.elem {
      case String =>
        BindStringSlice(flagSet, f, path, cfg);
        err := None;
      case Int =>
        BindIntSlice(flagSet, f, path, cfg);
        err := None;
      case _ =>
        err := Some(UnsupportedSlice(f.name));
    }
  }

  /**
   * bindString, bindBool, bindInt, bindInt32, bindFloat32, bindFloat64:
   * getTag again, then one registration with the converted default.
   */
  method BindScalar(flagSet: FlagSet, f: Field, kind: FlagKind, path: seq<nat>, cfg: FlagConfig)
    requires kind in {StringFlag, BoolFlag, IntFlag, Int32Flag, Float32Flag, Float64Flag}
    requires TagParses(f, cfg.Options()) && TagOf(f, cfg.Options(), cfg.parent).Some?
    modifies flagSet
    ensures flagSet.flags == old(flagSet.flags) + Registrations([Action(kind, TagOf(f, cfg.Options(), cfg.parent).value, path)])
  {
    var tag := GetTag(f, cfg);
    RegistrationsSingle(Action(kind, tag.value, path));
    var d := tag.value.default;
    var value;
    match kind {
      case StringFlag => value := Text(d);
      case BoolFlag => value := Truth(Stringx.ToBool(d));
      case IntFlag => value := Number(Stringx.Atoi(d, 64));
      case Int32Flag => value := Number(Stringx.Atoi(d, 32));
      case Float32Flag => value := FloatText(d);
      case Float64Flag => value := FloatText(d);
    }
    flagSet.Register(Registration(kind, tag.value.name, tag.value.short, value, tag.value.desc, path));
  }

  /** bindInt64: a time.Duration field becomes a duration flag, any other int64 an int64 flag. */
  method BindInt64(flagSet: FlagSet, f: Field, path: seq<nat>, cfg: FlagConfig)
    requires f.kind.Int64? && TagParses(f, cfg.Options()) && TagOf(f, cfg.Options(), cfg.parent).Some?
    modifies flagSet
    ensures var kind := if f.kind.isDuration then DurationFlag else Int64Flag;
      flagSet.flags == old(flagSet.flags) + Registrations([Action(kind, TagOf(f, cfg.Options(), cfg.parent).value, path)])
  {
    var tag := GetTag(f, cfg);
    var kind, value;
    if f.kind.isDuration {
      kind, value := DurationFlag, DurationText(tag.value.default);
    } else {
      kind, value := Int64Flag, Number(Stringx.Atoi(tag.value.default, 64));
    }
    assert value == DefaultOf(kind, tag.value.default);
    RegistrationsSingle(Action(kind, tag.value, path));
    flagSet.Register(Registration(kind, tag.value.name, tag.value.short, value, tag.value.desc, path));
  }

  /** bindStringSlice: the default is stringx.Split(default, ","). */
  method BindStringSlice(flagSet: FlagSet, f: Field, path: seq<nat>, cfg: FlagConfig)
    requires TagParses(f, cfg.Options()) && TagOf(f, cfg.Options(), cfg.parent).Some?
    modifies flagSet
    ensures flagSet.flags == old(flagSet.flags) + Registrations([Action(StringSliceFlag, TagOf(f, cfg.Options(), cfg.parent).value, path)])
  {
    var tag := GetTag(f, cfg);
    RegistrationsSingle(Action(StringSliceFlag, tag.value, path));
    var ss := Stringx.Split(tag.value.default, ",");
    flagSet.Register(Registration(StringSliceFlag, tag.value.name, tag.value.short, Texts(ss), tag.value.desc, path));
  }

  /** bindIntSlice: the default is stringx.AtoSlice[int](default, ","). */
  method BindIntSlice(flagSet: FlagSet, f: Field, path: seq<nat>, cfg: FlagConfig)
    requires TagParses(f, cfg.Options()) && TagOf(f, cfg.Options(), cfg.parent).Some?
    modifies flagSet
    ensures flagSet.flags == old(flagSet.flags) + Registrations([Action(IntSliceFlag, TagOf(f, cfg.Options(), cfg.parent).value, path)])
  {
    var tag := GetTag(f, cfg);
    RegistrationsSingle(Action(IntSliceFlag, tag.value, path));
    var ns := Stringx.AtoSlice(tag.value.default, ",", 64);
    flagSet.Register(Registration(IntSliceFlag, tag.value.name, tag.value.short, Numbers(ns), tag.value.desc, path));
  }
}
