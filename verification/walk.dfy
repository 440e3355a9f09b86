/**
 * What bindFlags and readFlags do to a struct, as a value: the flags they
 * touch, in the order they touch them, the error that stops them, and the
 * parent stack they leave behind.  Bind mode filters fields with parseTag
 * (which pushes the name of a non-squashed embedded struct); read mode
 * filters them with getTag (which never pushes).  Both pop through
 * revertAnonymousParentPrefix once a struct or pointer field has been walked,
 * whether or not that walk failed.
 */
module Walk {
  import opened Wrappers
  import opened Descriptor
  import opened Config
  import opened Tag
  import GoStrings

  datatype Mode = Bind | Read

  /** The flag kinds the binder registers, one per pflag *VarP call it makes. */
  datatype FlagKind =
    | StringFlag | BoolFlag | IntFlag | Int32Flag | Int64Flag | DurationFlag
    | Float32Flag | Float64Flag | StringSliceFlag | IntSliceFlag

  /**
   * One flag the walk handles: registered in bind mode, read back in read
   * mode.  `path` is the chain of field indices from the top struct down to
   * the field, standing for the field's address.
   */
  datatype Action = Action(kind: FlagKind, tag: TagData, path: seq<nat>)

  /** The errors bindFlags and readFlags return; each names the field it is about. */
  datatype FlagError =
    | NotPointer                       // "v0 must be pointer"
    | UnsupportedType(field: string)   // a kind with no handler
    | UnsupportedSlice(field: string)  // a slice of neither string nor int
    | NilPointer(field: string)        // "nil value of *Field"
    | UnsupportedPointee(field: string) // a pointer to something other than a struct

  /** The flags handled, the error returned (None is nil), and the parent stack afterwards. */
  datatype Outcome = Outcome(actions: seq<Action>, err: Option<FlagError>, parent: seq<string>)

  /** The flag kind of a field the walk does not recurse into, or None when it has no handler. */
  function LeafKind(k: Kind): (r: Option<FlagKind>)
    ensures r.Some? ==> !k.Struct? && !k.Pointer? && !k.Other?
    ensures r == Some(DurationFlag) <==> k == Int64(true)
    ensures k.Slice? ==> (r.Some? <==> k.elem == String || k.elem == Int)
  {
    match k
    case String => Some(StringFlag)
    case Bool => Some(BoolFlag)
    case Int => Some(IntFlag)
    case Int32 => Some(Int32Flag)
    case Int64(isDuration) => if isDuration then Some(DurationFlag) else Some(Int64Flag)
    case Float32 => Some(Float32Flag)
    case Float64 => Some(Float64Flag)
    case Slice(e) =>
      if e == String then Some(StringSliceFlag) else if e == Int then Some(IntSliceFlag) else None
    case _ => None
  }

  /** The struct a pointer field points to, if it is a non-nil pointer to a struct. */
  predicate PointsToStruct(k: Kind)
  {
    k.Pointer? && k.pointee.Some? && k.pointee.value.Struct?
  }

  /**
   * Every struct tag getTag reads in the fields from `i` on can be read
   * without indexing out of range: each field's own tag and, for a field
   * getTag keeps, the tags of the struct below it.  The walk never descends
   * into a field getTag skips, so nothing is asked of the fields below it.
   */
  predicate FieldsParse(o: TagOptions, fs: seq<Field>, i: nat)
    decreases FieldsSize(fs), 1, |fs| - i
  {
    i >= |fs| ||
    (TagParses(fs[i], o) && (TagOf(fs[i], o, []).Some? ==> KindParses(o, FieldOf(fs, i))) && FieldsParse(o, fs, i + 1))
  }

  /** The fields of a struct, or of the struct a pointer points to, parse; other kinds have no tags below them. */
  predicate KindParses(o: TagOptions, k: Kind)
    decreases KindSize(k), 0, 0
  {
    match k
    case Struct(fs) => FieldsParse(o, fs, 0)
    case Pointer(p) =>
      if p.Some? && p.value.Struct? then
        assert KindSize(p.value) == 1 + FieldsSize(p.value.fields);
        FieldsParse(o, p.value.fields, 0)
      else true
    case _ => true
  }

  /**
   * The tags getTag reads for one field parse: its own tag and, when getTag
   * keeps the field (whatever the stack, by TagOfParentIndependent), the tags
   * below it.
   */
  predicate FieldParses(o: TagOptions, f: Field)
  {
    TagParses(f, o) && (TagOf(f, o, []).Some? ==> KindParses(o, f.kind))
  }

  /** The kind of field `i`, known to be no larger than the whole list of fields. */
  function FieldOf(fs: seq<Field>, i: nat): (k: Kind)
    requires i < |fs|
    ensures k == fs[i].kind && KindSize(k) <= FieldsSize(fs)
  {
    FieldSmaller(fs, i);
    fs[i].kind
  }

  /** The outcome of walking fields `i..` of a struct at `path`, starting from stack `parent`. */
  function WalkFrom(m: Mode, o: TagOptions, fs: seq<Field>, i: nat, path: seq<nat>, parent: seq<string>): Outcome
    requires FieldsParse(o, fs, i)
    decreases FieldsSize(fs), 1, |fs| - i
  {
    if i >= |fs| then Outcome([], None, parent)
    else
      var k := FieldOf(fs, i);
      var head := WalkField(m, o, fs[i], path + [i], parent);
      Then(head, WalkFrom(m, o, fs, i + 1, path, head.parent))
  }

  /**
   * The loop body of bindFlags / readFlags for one field: a field the tag
   * parser skips is passed over; otherwise (after parseTag's push, in bind
   * mode) the field is dispatched on its kind.
   */
  function WalkField(m: Mode, o: TagOptions, f: Field, path: seq<nat>, parent: seq<string>): Outcome
    requires FieldParses(o, f)
    decreases KindSize(f.kind), 0, 2
  {
    if TagOf(f, o, parent).None? then Outcome([], None, parent)
    else
      TagOfParentIndependent(f, o, parent, []);
      Dispatch(m, o, f, path, if m == Bind then Pushed(f, o, parent) else parent)
  }

  /** The switch on the field's kind, with the parent stack as parseTag left it. */
  function Dispatch(m: Mode, o: TagOptions, f: Field, path: seq<nat>, parent: seq<string>): Outcome
    requires TagParses(f, o) && KindParses(o, f.kind)
    decreases KindSize(f.kind), 0, 1
  {
    match f.kind
    case Struct(fs) => Nested(m, o, f, fs, path, parent)
    case Pointer(p) =>
      if p.None? then Outcome([], Some(NilPointer(f.name)), Reverted(f, o, parent))
      else if !p.value.Struct? then Outcome([], Some(UnsupportedPointee(f.name)), Reverted(f, o, parent))
      else
        assert KindSize(p.value) == 1 + FieldsSize(p.value.fields);
        Nested(m, o, f, p.value.fields, path, parent)
    case Other(_) => Outcome([], Some(UnsupportedType(f.name)), parent)
    case _ =>
      if LeafKind(f.kind).None? then Outcome([], Some(UnsupportedSlice(f.name)), parent)
      else Leaf(o, f, LeafKind(f.kind).value, path, parent)
  }

  /** A struct (or the struct behind a pointer) walked field by field, then the deferred pop. */
  function Nested(m: Mode, o: TagOptions, f: Field, fs: seq<Field>, path: seq<nat>, parent: seq<string>): Outcome
    requires TagParses(f, o) && FieldsParse(o, fs, 0) && FieldsSize(fs) < KindSize(f.kind)
    decreases KindSize(f.kind), 0, 0
  {
    var r := WalkFrom(m, o, fs, 0, path, parent);
    Outcome(r.actions, r.err, Reverted(f, o, r.parent))
  }

  /** A field with a handler: one flag, named by getTag under the current stack. */
  function Leaf(o: TagOptions, f: Field, kind: FlagKind, path: seq<nat>, parent: seq<string>): (r: Outcome)
    requires TagParses(f, o)
    ensures r.err.None? && r.parent == parent && |r.actions| <= 1
    ensures forall a :: a in r.actions ==> a.kind == kind && a.path == path
  {
    var t := TagOf(f, o, parent);
    if t.None? then Outcome([], None, parent) else Outcome([Action(kind, t.value, path)], None, parent)
  }

  /** bindFlags on the value `v0`: it must be a pointer, and the walk runs over the struct it points to. */
  function BindTop(o: TagOptions, v0: Kind, parent: seq<string>): Outcome
    requires v0.Pointer? ==> PointsToStruct(v0) && FieldsParse(o, v0.pointee.value.fields, 0)
  {
    if !v0.Pointer? then Outcome([], Some(NotPointer), parent)
    else WalkFrom(Bind, o, v0.pointee.value.fields, 0, [], parent)
  }

  /** `done` followed by the outcome `r`: what a walk that has already handled `done` ends with. */
  function After(done: seq<Action>, r: Outcome): (a: Outcome)
    ensures a.err == r.err && a.parent == r.parent && |a.actions| == |done| + |r.actions|
  {
    Outcome(done + r.actions, r.err, r.parent)
  }

  /** The field at `i` and the fields after it parse when the fields from `i` on do. */
  lemma FieldsParseHead(o: TagOptions, fs: seq<Field>, i: nat)
    requires i < |fs| && FieldsParse(o, fs, i)
    ensures FieldParses(o, fs[i]) && FieldsParse(o, fs, i + 1)
  {
  }

  /**
   * One step of the walk over fields: the field at `i` is handled first; if it
   * fails its outcome is the whole outcome, otherwise the remaining fields go
   * on from the stack it left.
   */
  lemma WalkFromStep(m: Mode, o: TagOptions, fs: seq<Field>, i: nat, path: seq<nat>, parent: seq<string>, done: seq<Action>)
    requires i < |fs| && FieldsParse(o, fs, i)
    requires FieldParses(o, fs[i]) && FieldsParse(o, fs, i + 1)
    ensures var head := WalkField(m, o, fs[i], path + [i], parent);
      After(done, WalkFrom(m, o, fs, i, path, parent)) ==
        if head.err.Some? then After(done, head)
        else After(done + head.actions, WalkFrom(m, o, fs, i + 1, path, head.parent))
  {
    var head := WalkField(m, o, fs[i], path + [i], parent);
    var tail := WalkFrom(m, o, fs, i + 1, path, head.parent);
    assert WalkFrom(m, o, fs, i, path, parent) == Then(head, tail);
    AfterThen(done, head, tail);
  }

  /** One field's outcome followed by the outcome of the fields after it; an error stops the walk. */
  function Then(head: Outcome, tail: Outcome): Outcome
  {
    if head.err.Some? then head else Outcome(head.actions + tail.actions, tail.err, tail.parent)
  }

  lemma AfterThen(done: seq<Action>, head: Outcome, tail: Outcome)
    ensures After(done, Then(head, tail)) ==
      if head.err.Some? then After(done, head) else After(done + head.actions, tail)
  {
    if head.err.None? {
      assert done + (head.actions + tail.actions) == (done + head.actions) + tail.actions;
    }
  }


  // ---------------------------------------------------------------------------
  // Push/pop balance
  // ---------------------------------------------------------------------------

  /**
   * Binding leaves the parent stack as it found it, on success and on every
   * error path: each push by parseTag is undone by the deferred
   * revertAnonymousParentPrefix of the same field.
   */
  lemma {:induction false} BindFromRestoresParent(o: TagOptions, fs: seq<Field>, i: nat, path: seq<nat>, parent: seq<string>)
    requires FieldsParse(o, fs, i)
    ensures WalkFrom(Bind, o, fs, i, path, parent).parent == parent
    decreases FieldsSize(fs), 1, |fs| - i
  {
    if i < |fs| {
      var k := FieldOf(fs, i);
      BindFieldRestoresParent(o, fs[i], path + [i], parent);
      BindFromRestoresParent(o, fs, i + 1, path, parent);
    }
  }

  lemma {:induction false} BindFieldRestoresParent(o: TagOptions, f: Field, path: seq<nat>, parent: seq<string>)
    requires FieldParses(o, f)
    ensures WalkField(Bind, o, f, path, parent).parent == parent
    decreases KindSize(f.kind), 0, 2
  {
    if TagOf(f, o, parent).Some? {
      TagOfParentIndependent(f, o, parent, []);
      var inner := Pushed(f, o, parent);
      assert WalkField(Bind, o, f, path, parent) == Dispatch(Bind, o, f, path, inner);
      BindDispatchRestoresParent(o, f, path, parent);
    }
  }

  /** The dispatch of a field that is not skipped ends with the stack parseTag started from. */
  lemma {:induction false} BindDispatchRestoresParent(o: TagOptions, f: Field, path: seq<nat>, parent: seq<string>)
    requires TagParses(f, o) && KindParses(o, f.kind) && TagOf(f, o, parent).Some?
    ensures Dispatch(Bind, o, f, path, Pushed(f, o, parent)).parent == parent
    decreases KindSize(f.kind), 0, 1
  {
    var inner := Pushed(f, o, parent);
    match f.kind {
      case Struct(fs) =>
        BindFromRestoresParent(o, fs, 0, path, inner);
        PushThenRevert(f, o, parent);
      case Pointer(p) =>
        if p.Some? && p.value.Struct? {
          assert KindSize(p.value) == 1 + FieldsSize(p.value.fields);
          BindFromRestoresParent(o, p.value.fields, 0, path, inner);
        }
        PushThenRevert(f, o, parent);
      case _ =>
        assert !IsAnonymousCaredField(f);
    }
  }

  // ---------------------------------------------------------------------------
  // Read mode
  // ---------------------------------------------------------------------------

  /**
   * Reading from an empty stack (as ReadFlags always starts) keeps it empty,
   * and every flag is read under its unprefixed name.
   */
  lemma {:induction false} ReadFromUnprefixed(o: TagOptions, fs: seq<Field>, i: nat, path: seq<nat>)
    requires FieldsParse(o, fs, i)
    ensures var r := WalkFrom(Read, o, fs, i, path, []);
      r.parent == [] && forall a :: a in r.actions ==> a.tag.name == a.tag.origin
    decreases FieldsSize(fs), 1, |fs| - i
  {
    if i < |fs| {
      var k := FieldOf(fs, i);
      ReadFieldUnprefixed(o, fs[i], path + [i]);
      ReadFromUnprefixed(o, fs, i + 1, path);
    }
  }

  lemma {:induction false} ReadFieldUnprefixed(o: TagOptions, f: Field, path: seq<nat>)
    requires FieldParses(o, f)
    ensures var r := WalkField(Read, o, f, path, []);
      r.parent == [] && forall a :: a in r.actions ==> a.tag.name == a.tag.origin
    decreases KindSize(f.kind), 0, 2
  {
    if TagOf(f, o, []).Some? {
      assert WalkField(Read, o, f, path, []) == Dispatch(Read, o, f, path, []);
      ReadDispatchUnprefixed(o, f, path);
    }
  }

  lemma {:induction false} ReadDispatchUnprefixed(o: TagOptions, f: Field, path: seq<nat>)
    requires TagParses(f, o) && KindParses(o, f.kind)
    ensures var r := Dispatch(Read, o, f, path, []);
      r.parent == [] && forall a :: a in r.actions ==> a.tag.name == a.tag.origin
    decreases KindSize(f.kind), 0, 1
  {
    match f.kind {
      case Struct(fs) =>
        ReadFromUnprefixed(o, fs, 0, path);
      case Pointer(p) =>
        if p.Some? && p.value.Struct? {
          assert KindSize(p.value) == 1 + FieldsSize(p.value.fields);
          ReadFromUnprefixed(o, p.value.fields, 0, path);
        }
      case _ =>
        if TagOf(f, o, []).Some? {
          UnprefixedName(f, o, []);
        }
    }
  }

  // ---------------------------------------------------------------------------
  // Which fields become flags, and when the walk fails
  // ---------------------------------------------------------------------------

  /**
   * The fields from `i` on that the walk can handle: each one is skipped by
   * its tag, has a handler, or is a struct (or non-nil pointer to a struct)
   * whose own fields can all be handled.
   */
  predicate FieldsSupported(o: TagOptions, fs: seq<Field>, i: nat)
    requires FieldsParse(o, fs, i)
    decreases FieldsSize(fs), 1, |fs| - i
  {
    i >= |fs| ||
    ((TagOf(fs[i], o, []).None? || KindSupported(o, FieldOf(fs, i))) && FieldsSupported(o, fs, i + 1))
  }

  predicate KindSupported(o: TagOptions, k: Kind)
    requires KindParses(o, k)
    decreases KindSize(k), 0, 0
  {
    match k
    case Struct(fs) => FieldsSupported(o, fs, 0)
    case Pointer(p) =>
      p.Some? && p.value.Struct? &&
      assert KindSize(p.value) == 1 + FieldsSize(p.value.fields);
      FieldsSupported(o, p.value.fields, 0)
    case Other(_) => false
    case _ => LeafKind(k).Some?
  }

  /**
   * The flags a struct has, in declaration order: the kind and path of every
   * field with a handler that its tag does not skip, the fields of nested
   * structs in place.
   */
  function Flags(o: TagOptions, fs: seq<Field>, i: nat, path: seq<nat>): seq<(FlagKind, seq<nat>)>
    requires FieldsParse(o, fs, i)
    decreases FieldsSize(fs), 1, |fs| - i
  {
    if i >= |fs| then []
    else
      var k := FieldOf(fs, i);
      (if TagOf(fs[i], o, []).None? then [] else KindFlags(o, k, path + [i])) + Flags(o, fs, i + 1, path)
  }

  function KindFlags(o: TagOptions, k: Kind, path: seq<nat>): seq<(FlagKind, seq<nat>)>
    requires KindParses(o, k)
    decreases KindSize(k), 0, 0
  {
    match k
    case Struct(fs) => Flags(o, fs, 0, path)
    case Pointer(p) =>
      if p.Some? && p.value.Struct? then
        assert KindSize(p.value) == 1 + FieldsSize(p.value.fields);
        Flags(o, p.value.fields, 0, path)
      else []
    case _ => if LeafKind(k).Some? then [(LeafKind(k).value, path)] else []
  }

  /** The kind and destination of each flag handled. */
  function Kinds(actions: seq<Action>): (r: seq<(FlagKind, seq<nat>)>)
    ensures |r| == |actions|
    ensures forall k :: 0 <= k < |actions| ==> r[k] == (actions[k].kind, actions[k].path)
  {
    seq(|actions|, k requires 0 <= k < |actions| => (actions[k].kind, actions[k].path))
  }

  lemma KindsAppend(a: seq<Action>, b: seq<Action>)
    ensures Kinds(a + b) == Kinds(a) + Kinds(b)
  {
    assert forall k :: 0 <= k < |a| + |b| ==> (a + b)[k] == if k < |a| then a[k] else b[k - |a|];
  }

  lemma PrefixAppend<T>(a: seq<T>, b: seq<T>, c: seq<T>)
    requires b <= c
    ensures a + b <= a + c
  {
    assert (a + c)[..|a + b|] == a + c[..|b|];
  }

  lemma PrefixExtend<T>(a: seq<T>, b: seq<T>, c: seq<T>)
    requires a <= b
    ensures a <= b + c
  {
    assert (b + c)[..|a|] == b[..|a|];
  }

  /**
   * In either mode the walk fails exactly when some field it reaches has no
   * handler; it handles the struct's flags in declaration order, stops at the
   * first error keeping the flags already handled (a prefix of the struct's
   * flags), and handles all of them when nothing fails.
   */
  lemma {:induction false} WalkFromFlags(m: Mode, o: TagOptions, fs: seq<Field>, i: nat, path: seq<nat>, parent: seq<string>)
    requires FieldsParse(o, fs, i)
    ensures var r := WalkFrom(m, o, fs, i, path, parent);
      (r.err.None? <==> FieldsSupported(o, fs, i)) &&
      Kinds(r.actions) <= Flags(o, fs, i, path) &&
      (r.err.None? ==> Kinds(r.actions) == Flags(o, fs, i, path))
    decreases FieldsSize(fs), 1, |fs| - i
  {
    if i < |fs| {
      var k := FieldOf(fs, i);
      var head := WalkField(m, o, fs[i], path + [i], parent);
      var own := if TagOf(fs[i], o, []).None? then [] else KindFlags(o, k, path + [i]);
      WalkFieldFlags(m, o, fs[i], path + [i], parent);
      if head.err.Some? {
        PrefixExtend(Kinds(head.actions), own, Flags(o, fs, i + 1, path));
      } else {
        var tail := WalkFrom(m, o, fs, i + 1, path, head.parent);
        WalkFromFlags(m, o, fs, i + 1, path, head.parent);
        KindsAppend(head.actions, tail.actions);
        PrefixAppend(own, Kinds(tail.actions), Flags(o, fs, i + 1, path));
      }
    }
  }

  lemma {:induction false} WalkFieldFlags(m: Mode, o: TagOptions, f: Field, path: seq<nat>, parent: seq<string>)
    requires FieldParses(o, f)
    ensures var r := WalkField(m, o, f, path, parent);
      var own := if TagOf(f, o, []).None? then [] else KindFlags(o, f.kind, path);
      (r.err.None? <==> TagOf(f, o, []).None? || KindSupported(o, f.kind)) &&
      Kinds(r.actions) <= own &&
      (r.err.None? ==> Kinds(r.actions) == own)
    decreases KindSize(f.kind), 0, 2
  {
    TagOfParentIndependent(f, o, parent, []);
    if TagOf(f, o, parent).Some? {
      var inner := if m == Bind then Pushed(f, o, parent) else parent;
      assert WalkField(m, o, f, path, parent) == Dispatch(m, o, f, path, inner);
      DispatchFlags(m, o, f, path, inner);
    }
  }

  lemma {:induction false} DispatchFlags(m: Mode, o: TagOptions, f: Field, path: seq<nat>, parent: seq<string>)
    requires TagParses(f, o) && KindParses(o, f.kind) && TagOf(f, o, []).Some?
    ensures var r := Dispatch(m, o, f, path, parent);
      (r.err.None? <==> KindSupported(o, f.kind)) &&
      Kinds(r.actions) <= KindFlags(o, f.kind, path) &&
      (r.err.None? ==> Kinds(r.actions) == KindFlags(o, f.kind, path))
    decreases KindSize(f.kind), 0, 1
  {
    match f.kind {
      case Struct(fs) =>
        WalkFromFlags(m, o, fs, 0, path, parent);
      case Pointer(p) =>
        if p.Some? && p.value.Struct? {
          assert KindSize(p.value) == 1 + FieldsSize(p.value.fields);
          WalkFromFlags(m, o, p.value.fields, 0, path, parent);
        }
      case _ =>
        TagOfParentIndependent(f, o, parent, []);
    }
  }

  /** Binding and reading the same struct fail alike and, when they succeed, handle the same flags. */
  lemma BindReadSameFlags(o: TagOptions, fs: seq<Field>, path: seq<nat>, parent: seq<string>)
    requires FieldsParse(o, fs, 0)
    ensures WalkFrom(Bind, o, fs, 0, path, parent).err.None? <==> WalkFrom(Read, o, fs, 0, path, []).err.None?
    ensures WalkFrom(Bind, o, fs, 0, path, parent).err.None? ==>
      Kinds(WalkFrom(Bind, o, fs, 0, path, parent).actions) == Kinds(WalkFrom(Read, o, fs, 0, path, []).actions)
  {
    WalkFromFlags(Bind, o, fs, 0, path, parent);
    WalkFromFlags(Read, o, fs, 0, path, []);
  }

  /** Every action is for a field at or below `path`. */
  ghost predicate Below(actions: seq<Action>, path: seq<nat>)
  {
    forall a :: a in actions ==> |path| <= |a.path| && a.path[..|path|] == path
  }

  /** No two actions are for the same field. */
  ghost predicate DistinctPaths(actions: seq<Action>)
  {
    forall j, k :: 0 <= j < k < |actions| ==> actions[j].path != actions[k].path
  }

  /**
   * Each field is handled at most once: the walk over fields `i..` only
   * touches fields below `path` whose index there is at least `i`, and never
   * the same field twice.
   */
  lemma {:induction false} WalkFromPaths(m: Mode, o: TagOptions, fs: seq<Field>, i: nat, path: seq<nat>, parent: seq<string>)
    requires FieldsParse(o, fs, i)
    ensures var r := WalkFrom(m, o, fs, i, path, parent);
      Below(r.actions, path) && DistinctPaths(r.actions) &&
      forall a :: a in r.actions ==> |path| < |a.path| && a.path[|path|] >= i
    decreases FieldsSize(fs), 1, |fs| - i
  {
    if i < |fs| {
      var k := FieldOf(fs, i);
      var head := WalkField(m, o, fs[i], path + [i], parent);
      WalkFieldPaths(m, o, fs[i], path + [i], parent);
      BelowChild(head.actions, path, i);
      if head.err.None? {
        var tail := WalkFrom(m, o, fs, i + 1, path, head.parent);
        assert WalkFrom(m, o, fs, i, path, parent).actions == head.actions + tail.actions;
        WalkFromPaths(m, o, fs, i + 1, path, head.parent);
        DistinctConcat(head.actions, tail.actions, path, i);
      } else {
        assert WalkFrom(m, o, fs, i, path, parent) == head;
      }
    }
  }

  /** An action below `path + [i]` is below `path`, at index `i` there. */
  lemma BelowChild(actions: seq<Action>, path: seq<nat>, i: nat)
    requires Below(actions, path + [i])
    ensures Below(actions, path) && forall a :: a in actions ==> |path| < |a.path| && a.path[|path|] == i
  {
    forall a | a in actions
      ensures |path| < |a.path| && a.path[..|path|] == path && a.path[|path|] == i
    {
      assert a.path[..|path| + 1] == path + [i];
      assert a.path[..|path|] == (path + [i])[..|path|];
    }
  }

  /** The actions of one field, then those of later fields, are still for distinct fields. */
  lemma DistinctConcat(head: seq<Action>, tail: seq<Action>, path: seq<nat>, i: nat)
    requires DistinctPaths(head) && DistinctPaths(tail) && Below(head, path) && Below(tail, path)
    requires forall a :: a in head ==> |path| < |a.path| && a.path[|path|] == i
    requires forall a :: a in tail ==> |path| < |a.path| && a.path[|path|] >= i + 1
    ensures var all := head + tail;
      Below(all, path) && DistinctPaths(all) && forall a :: a in all ==> |path| < |a.path| && a.path[|path|] >= i
  {
    var all := head + tail;
    forall j, k | 0 <= j < k < |all| ensures all[j].path != all[k].path {
      if j < |head| && k >= |head| {
        assert all[j] in head && all[k] in tail;
      } else if j >= |head| {
        assert all[j] == tail[j - |head|] && all[k] == tail[k - |head|];
      }
    }
  }

  lemma {:induction false} WalkFieldPaths(m: Mode, o: TagOptions, f: Field, path: seq<nat>, parent: seq<string>)
    requires FieldParses(o, f)
    ensures var r := WalkField(m, o, f, path, parent);
      Below(r.actions, path) && DistinctPaths(r.actions)
    decreases KindSize(f.kind), 0, 2
  {
    if TagOf(f, o, parent).Some? {
      TagOfParentIndependent(f, o, parent, []);
      var p := if m == Bind then Pushed(f, o, parent) else parent;
      assert WalkField(m, o, f, path, parent) == Dispatch(m, o, f, path, p);
      DispatchPaths(m, o, f, path, p);
    }
  }

  lemma {:induction false} DispatchPaths(m: Mode, o: TagOptions, f: Field, path: seq<nat>, parent: seq<string>)
    requires TagParses(f, o) && KindParses(o, f.kind)
    ensures var r := Dispatch(m, o, f, path, parent);
      Below(r.actions, path) && DistinctPaths(r.actions)
    decreases KindSize(f.kind), 0, 1
  {
    match f.kind
    case Struct(fs) =>
      WalkFromPaths(m, o, fs, 0, path, parent);
    case Pointer(p) =>
      if p.Some? && p.value.Struct? {
        assert KindSize(p.value) == 1 + FieldsSize(p.value.fields);
        WalkFromPaths(m, o, p.value.fields, 0, path, parent);
      }
    case _ =>
      assert path[..|path|] == path;
  }

  /**
   * With squash on (the default), binding and reading walk the same way: every
   * field is read under the very name it was registered with, with the same
   * kind, at the same path.
   */
  lemma {:induction false} SquashedBindIsRead(o: TagOptions, fs: seq<Field>, i: nat, path: seq<nat>, parent: seq<string>)
    requires o.squash && FieldsParse(o, fs, i)
    ensures WalkFrom(Bind, o, fs, i, path, parent) == WalkFrom(Read, o, fs, i, path, parent)
    decreases FieldsSize(fs), 1, |fs| - i
  {
    if i < |fs| {
      var k := FieldOf(fs, i);
      SquashedFieldIsRead(o, fs[i], path + [i], parent);
      var head := WalkField(Bind, o, fs[i], path + [i], parent);
      if head.err.None? {
        SquashedBindIsRead(o, fs, i + 1, path, head.parent);
      }
    }
  }

  lemma {:induction false} SquashedFieldIsRead(o: TagOptions, f: Field, path: seq<nat>, parent: seq<string>)
    requires o.squash && FieldParses(o, f)
    ensures WalkField(Bind, o, f, path, parent) == WalkField(Read, o, f, path, parent)
    decreases KindSize(f.kind), 0, 2
  {
    if TagOf(f, o, parent).Some? {
      TagOfParentIndependent(f, o, parent, []);
      assert Pushed(f, o, parent) == parent;
      assert WalkField(Bind, o, f, path, parent) == Dispatch(Bind, o, f, path, parent);
      assert WalkField(Read, o, f, path, parent) == Dispatch(Read, o, f, path, parent);
      SquashedDispatchIsRead(o, f, path, parent);
    }
  }

  lemma {:induction false} SquashedDispatchIsRead(o: TagOptions, f: Field, path: seq<nat>, parent: seq<string>)
    requires o.squash && TagParses(f, o) && KindParses(o, f.kind)
    ensures Dispatch(Bind, o, f, path, parent) == Dispatch(Read, o, f, path, parent)
    decreases KindSize(f.kind), 0, 1
  {
    match f.kind
    case Struct(fs) =>
      SquashedBindIsRead(o, fs, 0, path, parent);
    case Pointer(p) =>
      if p.Some? && p.value.Struct? {
        assert KindSize(p.value) == 1 + FieldsSize(p.value.fields);
        SquashedBindIsRead(o, p.value.fields, 0, path, parent);
      }
    case _ =>
  }

  /** Squash off, and an embedded struct `Base` holding one untagged string field `Name`. */
  const ExampleOptions: TagOptions := TagOptions(TagName, TagLabelSep, false, false)
  const NameField: Field := Field("Name", map[], false, String)
  const BaseField: Field := Field("Base", map[], true, Struct([NameField]))

  /** The tag of `Name`: named after its lower-cased Go name, prefixed by the stack. */
  lemma NameFieldTag()
    ensures FieldsParse(ExampleOptions, [NameField], 0)
    ensures TagOf(NameField, ExampleOptions, []) == Some(TagData("name", "name", "", "", "", false))
    ensures TagOf(NameField, ExampleOptions, ["base"]) == Some(TagData("name", "base.name", "", "", "", false))
  {
    var o := ExampleOptions;
    assert GoStrings.ToLower("Name") == "name";
    UntaggedField(NameField, o);
    TagOfParentIndependent(NameField, o, ["base"], []);
    assert GoStrings.Join(["base"], ".") == "base";
    assert "base" + "." + "name" == "base.name";
    assert Prefixed(o, ["base"], "name") == "base.name";
    assert FieldsParse(o, [NameField], 1);
    assert FieldOf([NameField], 0) == String;
  }

  /** The tag of `Base`: untagged, so not squashed, and its name is pushed. */
  lemma BaseFieldTag()
    ensures FieldsParse(ExampleOptions, [NameField], 0) && FieldsParse(ExampleOptions, [BaseField], 0)
    ensures TagOf(BaseField, ExampleOptions, []).Some? && Pushed(BaseField, ExampleOptions, []) == ["base"]
  {
    var o := ExampleOptions;
    NameFieldTag();
    assert GoStrings.ToLower("Base") == "base";
    UntaggedField(BaseField, o);
    assert KindParses(o, BaseField.kind);
    assert FieldsParse(o, [BaseField], 1);
    assert FieldOf([BaseField], 0) == Struct([NameField]);
  }

  /** Reading the example: `Name` is read under the bare name "name". */
  lemma ReadExample()
    ensures FieldsParse(ExampleOptions, [BaseField], 0)
    ensures WalkFrom(Read, ExampleOptions, [BaseField], 0, [], []).actions ==
      [Action(StringFlag, TagData("name", "name", "", "", "", false), [0, 0])]
  {
    var o := ExampleOptions;
    NameFieldTag();
    BaseFieldTag();
    assert [0] + [0] == [0, 0];
    assert [] + [0] == [0];
    var leaf := WalkField(Read, o, NameField, [0, 0], []);
    assert leaf.actions == [Action(StringFlag, TagData("name", "name", "", "", "", false), [0, 0])];
    assert WalkFrom(Read, o, [NameField], 0, [0], []).actions == leaf.actions + WalkFrom(Read, o, [NameField], 1, [0], []).actions;
    assert WalkFrom(Read, o, [BaseField], 0, [], []).actions == WalkField(Read, o, BaseField, [0], []).actions;
    assert WalkField(Read, o, BaseField, [0], []) == Dispatch(Read, o, BaseField, [0], []);
    assert Dispatch(Read, o, BaseField, [0], []) == Nested(Read, o, BaseField, [NameField], [0], []);
  }

  /** Binding the example: `Name` is registered under the prefixed name "base.name". */
  lemma BindExample()
    ensures FieldsParse(ExampleOptions, [BaseField], 0)
    ensures WalkFrom(Bind, ExampleOptions, [BaseField], 0, [], []).actions ==
      [Action(StringFlag, TagData("name", "base.name", "", "", "", false), [0, 0])]
  {
    var o := ExampleOptions;
    NameFieldTag();
    BaseFieldTag();
    assert [0] + [0] == [0, 0];
    assert [] + [0] == [0];
    var leaf := WalkField(Bind, o, NameField, [0, 0], ["base"]);
    assert leaf.actions == [Action(StringFlag, TagData("name", "base.name", "", "", "", false), [0, 0])];
    assert WalkFrom(Bind, o, [NameField], 0, [0], ["base"]).actions == leaf.actions + WalkFrom(Bind, o, [NameField], 1, [0], ["base"]).actions;
    assert WalkFrom(Bind, o, [BaseField], 0, [], []).actions == WalkField(Bind, o, BaseField, [0], []).actions;
    assert WalkField(Bind, o, BaseField, [0], []) == Dispatch(Bind, o, BaseField, [0], ["base"]);
    assert Dispatch(Bind, o, BaseField, [0], ["base"]) == Nested(Bind, o, BaseField, [NameField], [0], ["base"]);
  }

  /**
   * With squash off, the field of an embedded struct is registered under the
   * prefixed name but read back under the bare name: readFlags filters with
   * getTag, which does not push the embedded struct's name.  The same field,
   * at the same path, is bound and read under different names.
   */
  lemma BindReadNamesDiffer()
    ensures FieldsParse(ExampleOptions, [BaseField], 0)
    ensures var b := WalkFrom(Bind, ExampleOptions, [BaseField], 0, [], []).actions;
      var r := WalkFrom(Read, ExampleOptions, [BaseField], 0, [], []).actions;
      |b| == |r| == 1 && b[0].path == r[0].path && b[0].tag.name == "base.name" && r[0].tag.name == "name"
  {
    BindExample();
    ReadExample();
  }

  /** The struct field `S` tagged `flag:"-"`, holding a field whose tag getTag cannot read. */
  const SkippedField: Field := Field("S", map[TagName := TagLabelSkip], false, Struct([EmptyLabelField]))

  /** The subtree under `SkippedField` holds a tag getTag cannot read, yet the field parses. */
  lemma SkippedFieldParses()
    ensures !KindParses(Defaults, SkippedField.kind)
    ensures TagOf(SkippedField, Defaults, []).None? && FieldsParse(Defaults, [SkippedField], 0)
  {
    EmptyLabelDoesNotParse();
    assert !FieldsParse(Defaults, [EmptyLabelField], 0);
    SkipTag(SkippedField, Defaults, []);
    assert FieldsParse(Defaults, [SkippedField], 1);
  }

  /**
   * A field tagged `-` is skipped before its kind is looked at, so a tag
   * below it that getTag could not read is never reached: both walks pass
   * over the whole subtree and touch nothing.
   */
  lemma SkippedSubtreeIgnored(m: Mode)
    ensures !KindParses(Defaults, SkippedField.kind)
    ensures FieldsParse(Defaults, [SkippedField], 0)
    ensures WalkFrom(m, Defaults, [SkippedField], 0, [], []) == Outcome([], None, [])
  {
    SkippedFieldParses();
    var head := WalkField(m, Defaults, SkippedField, [0], []);
    assert head == Outcome([], None, []);
    assert WalkFrom(m, Defaults, [SkippedField], 1, [], []) == Outcome([], None, []);
    assert WalkFrom(m, Defaults, [SkippedField], 0, [], []) == Then(head, Outcome([], None, []));
  }
}
