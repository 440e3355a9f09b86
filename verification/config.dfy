/**
 * FlagConfig and its options: the tag key to read, the label separator,
 * whether embedded structs are flattened, whether untagged fields are
 * ignored, and the stack of name segments that prefixes the flags of
 * embedded structs when they are not flattened.
 */
module Config {

  const TagName: string := "flag"
  const TagLabelShort: string := "short"
  const TagLabelDesc: string := "desc"
  const TagLabelDefault: string := "default"
  const TagLabelSquash: string := "squash"
  const TagLabelSkip: string := "-"
  const TagLabelSep: string := ","

  /** The settings of a FlagConfig that the tag parser reads. */
  datatype TagOptions = TagOptions(tagName: string, tagLabelSep: string, squash: bool, ignoreUntaggedFields: bool)

  /** The FlagOption constructors of the package, one per setting they write. */
  datatype FlagOption =
    | WithTagNameOption(tag: string)
    | WithTagLabelSepOption(sep: string)
    | WithAutoUnMarshalOption
    | WithIgnoreUntaggedFieldsOption(ignore: bool)
    | WithSquashOption(squash: bool)

  /** The settings defaultFlagConfig starts from before any option runs. */
  const Defaults: TagOptions := TagOptions(TagName, TagLabelSep, true, false)

  /** The effect of one option on the parser settings. */
  function Apply(o: TagOptions, opt: FlagOption): TagOptions
  {
    match opt
    case WithTagNameOption(tag) => o.(tagName := tag)
    case WithTagLabelSepOption(sep) => o.(tagLabelSep := sep)
    case WithAutoUnMarshalOption => o
    case WithIgnoreUntaggedFieldsOption(ignore) => o.(ignoreUntaggedFields := ignore)
    case WithSquashOption(squash) => o.(squash := squash)
  }

  /** The options applied in order, the way defaultFlagConfig runs them. */
  function ApplyAll(o: TagOptions, opts: seq<FlagOption>): TagOptions
    decreases |opts|
  {
    if opts == [] then o else ApplyAll(Apply(o, opts[0]), opts[1..])
  }

  /** Running two lists of options one after the other is running their concatenation. */
  lemma {:induction false} ApplyAllAppend(o: TagOptions, a: seq<FlagOption>, b: seq<FlagOption>)
    ensures ApplyAll(o, a + b) == ApplyAll(ApplyAll(o, a), b)
    decreases |a|
  {
    if a == [] {
      assert a + b == b;
    } else {
      assert (a + b)[1..] == a[1..] + b;
      ApplyAllAppend(Apply(o, a[0]), a[1..], b);
    }
  }

  /** A setting that no option writes keeps its starting value. */
  lemma {:induction false} ApplyAllFrame(o: TagOptions, opts: seq<FlagOption>)
    ensures (forall k :: 0 <= k < |opts| ==> !opts[k].WithTagNameOption?) ==> ApplyAll(o, opts).tagName == o.tagName
    ensures (forall k :: 0 <= k < |opts| ==> !opts[k].WithTagLabelSepOption?) ==> ApplyAll(o, opts).tagLabelSep == o.tagLabelSep
    ensures (forall k :: 0 <= k < |opts| ==> !opts[k].WithSquashOption?) ==> ApplyAll(o, opts).squash == o.squash
    ensures (forall k :: 0 <= k < |opts| ==> !opts[k].WithIgnoreUntaggedFieldsOption?) ==>
      ApplyAll(o, opts).ignoreUntaggedFields == o.ignoreUntaggedFields
    decreases |opts|
  {
    if opts != [] {
      ApplyAllFrame(Apply(o, opts[0]), opts[1..]);
      assert forall k :: 0 <= k < |opts| - 1 ==> opts[1..][k] == opts[k + 1];
    }
  }

  /** The last squash option decides squash: options are applied in order and later ones overwrite earlier ones. */
  lemma LastSquashOptionWins(o: TagOptions, a: seq<FlagOption>, b: bool, c: seq<FlagOption>)
    requires forall k :: 0 <= k < |c| ==> !c[k].WithSquashOption?
    ensures ApplyAll(o, a + [WithSquashOption(b)] + c).squash == b
  {
    ApplyAllAppend(o, a + [WithSquashOption(b)], c);
    ApplyAllAppend(o, a, [WithSquashOption(b)]);
    ApplyAllFrame(ApplyAll(o, a + [WithSquashOption(b)]), c);
  }

  /**
   * The configuration one call of BindFlags or ReadFlags works with.  The
   * pre-unmarshal hooks are not part of this model.
   */
  class FlagConfig {
    var ignoreUntaggedFields: bool
    var squash: bool
    var parent: seq<string>
    var autoUnMarshalFlag: bool
    var tagName: string
    var tagLabelSep: string

    /** The parser settings this configuration currently holds. */
    function Options(): (o: TagOptions)
      reads this`tagName, this`tagLabelSep, this`squash, this`ignoreUntaggedFields
      ensures o.tagName == tagName && o.tagLabelSep == tagLabelSep
      ensures o.squash == squash && o.ignoreUntaggedFields == ignoreUntaggedFields
    {
      TagOptions(tagName, tagLabelSep, squash, ignoreUntaggedFields)
    }

    /** defaultFlagConfig: tag "flag", separator ",", squash on, then every option in order. */
    constructor (opts: seq<FlagOption>)
      ensures Options() == ApplyAll(Defaults, opts)
      ensures parent == []
      ensures autoUnMarshalFlag <==> WithAutoUnMarshalOption in opts
    {
      tagName := TagName;
      tagLabelSep := TagLabelSep;
      squash := true;
      ignoreUntaggedFields := false;
      parent := [];
      autoUnMarshalFlag := false;
      new;
      for i := 0 to |opts|
        invariant ApplyAll(Options(), opts[i..]) == ApplyAll(Defaults, opts)
        invariant parent == []
        invariant autoUnMarshalFlag <==> WithAutoUnMarshalOption in opts[..i]
      {
        assert opts[i..] == [opts[i]] + opts[i + 1..];
        assert opts[..i + 1] == opts[..i] + [opts[i]];
        ApplyOption(opts[i]);
      }
      assert opts[..|opts|] == opts;
    }

    /** Running one FlagOption closure on the configuration. */
    method ApplyOption(opt: FlagOption)
      modifies this
      ensures Options() == Apply(old(Options()), opt)
      ensures parent == old(parent)
      ensures autoUnMarshalFlag == (old(autoUnMarshalFlag) || opt == WithAutoUnMarshalOption)
    {
      match opt
      case WithTagNameOption(tag) => tagName := tag;
      case WithTagLabelSepOption(sep) => tagLabelSep := sep;
      case WithAutoUnMarshalOption => autoUnMarshalFlag := true;
      case WithIgnoreUntaggedFieldsOption(ignore) => ignoreUntaggedFields := ignore;
      case WithSquashOption(s) => squash := s;
    }
  }
}
