/**
 * getTag, parseTag and revertAnonymousParentPrefix: reading a field's struct
 * tag into a flag name, shorthand, description, default text and squash
 * mark, and keeping the stack of embedded-struct names that prefixes flag
 * names when embedded structs are not flattened.
 *
 * The tag text is cut on the label separator into tokens.  The first token
 * is the flag name; each later token is a label `key` or `key:value`.  A
 * label token ending in a backslash swallows the next token, joined by the
 * separator, as long as the result still ends in a backslash.
 */
module Tag {
  import opened Wrappers
  import opened Descriptor
  import opened Config
  import GoStrings

  /** The tagData record of a field that is not skipped. */
  datatype TagData = TagData(origin: string, name: string, short: string, desc: string, default: string, squash: bool)

  predicate EndsInBackslash(s: string)
  {
    s != [] && s[|s| - 1] == '\\'
  }

  /** `s` without its last rune (the escaping backslash). */
  function DropLast(s: string): string
    requires s != []
  {
    s[..|s| - 1]
  }

  /**
   * The escape loop can run on label `cur` sitting at token `i`: the label is
   * not empty (its last byte is read) and, while it ends in a backslash, there
   * is a next token to swallow.
   */
  predicate EscapeOk(cur: string, toks: seq<string>, i: nat, sep: string)
    decreases |toks| - i
  {
    cur != [] && i < |toks| &&
    (EndsInBackslash(cur) ==> i + 1 < |toks| && EscapeOk(DropLast(cur) + sep + toks[i + 1], toks, i + 1, sep))
  }

  /**
   * The escape loop: the finished label and the index of the first token
   * after the ones it swallowed.
   */
  function Rejoin(cur: string, toks: seq<string>, i: nat, sep: string): (res: (string, nat))
    requires EscapeOk(cur, toks, i, sep)
    ensures i < res.1 <= |toks|
    ensures res.0 != [] && !EndsInBackslash(res.0)
    decreases |toks| - i
  {
    if !EndsInBackslash(cur) then (cur, i + 1)
    else Rejoin(DropLast(cur) + sep + toks[i + 1], toks, i + 1, sep)
  }

  /** Every label from token `i` on can be read without indexing out of range. */
  predicate LabelsOk(toks: seq<string>, i: nat, sep: string)
    decreases |toks| - i
  {
    i >= |toks| ||
    (EscapeOk(toks[i], toks, i, sep) && LabelsOk(toks, Rejoin(toks[i], toks, i, sep).1, sep))
  }

  /**
   * One label into the settings: split on ":", the trimmed first part is the
   * key, the other parts re-joined with ":" are the value; a label without a
   * colon stores its key as its own value, and an empty key stores nothing.
   */
  function ApplyLabel(settings: map<string, string>, token: string): map<string, string>
  {
    var values := GoStrings.Split(token, ":");
    var k := GoStrings.TrimSpace(values[0]);
    if |values| >= 2 then settings[k := GoStrings.Join(values[1..], ":")]
    else if k != "" then settings[k := k]
    else settings
  }

  /** The settings after every label from token `i` on, in order. */
  function Labels(settings: map<string, string>, toks: seq<string>, i: nat, sep: string): map<string, string>
    requires LabelsOk(toks, i, sep)
    decreases |toks| - i
  {
    if i >= |toks| then settings
    else
      var r := Rejoin(toks[i], toks, i, sep);
      Labels(ApplyLabel(settings, r.0), toks, r.1, sep)
  }

  /** field.Tag.Lookup(key): the value, or "" when the key is absent. */
  function Lookup(f: Field, key: string): string
  {
    if key in f.tags then f.tags[key] else ""
  }

  /** The tokens of the trimmed tag text. */
  function Tokens(f: Field, o: TagOptions): seq<string>
  {
    GoStrings.Split(GoStrings.TrimSpace(Lookup(f, o.tagName)), o.tagLabelSep)
  }

  /**
   * getTag does not index out of range on this field: no label token is
   * empty and no escape runs past the last token.
   */
  predicate TagParses(f: Field, o: TagOptions)
  {
    LabelsOk(Tokens(f, o), 1, o.tagLabelSep)
  }

  /** The settings map getTag builds: the trimmed first token under the tag key, then every label. */
  function Settings(f: Field, o: TagOptions): map<string, string>
    requires TagParses(f, o)
  {
    var toks := Tokens(f, o);
    if toks == [] then map[] else Labels(map[o.tagName := GoStrings.TrimSpace(toks[0])], toks, 1, o.tagLabelSep)
  }

  /** A Go map read: the stored value, or "" when the key is absent. */
  function Get(settings: map<string, string>, key: string): string
  {
    if key in settings then settings[key] else ""
  }

  /** The flag name before any prefix: the tag's name, or else the lower-cased field name. */
  function Origin(f: Field, o: TagOptions): string
    requires TagParses(f, o)
  {
    var given := Get(Settings(f, o), o.tagName);
    if |given| == 0 then GoStrings.ToLower(f.name) else given
  }

  /** The name a flag gets under the current parent stack. */
  function Prefixed(o: TagOptions, parent: seq<string>, origin: string): string
  {
    if !o.squash && |parent| > 0 then GoStrings.Join(parent, ".") + "." + origin else origin
  }

  /** What getTag returns for a field under the given settings and parent stack; None is nil. */
  function TagOf(f: Field, o: TagOptions, parent: seq<string>): (r: Option<TagData>)
    requires TagParses(f, o)
    ensures r.Some? ==> r.value.origin != TagLabelSkip
  {
    if o.ignoreUntaggedFields && o.tagName !in f.tags then None
    else
      var settings := Settings(f, o);
      var origin := Origin(f, o);
      if origin == TagLabelSkip then None
      else Some(TagData(origin, Prefixed(o, parent, origin), Get(settings, TagLabelShort), Get(settings, TagLabelDesc),
                        Get(settings, TagLabelDefault), TagLabelSquash in settings))
  }

  /** The parent stack after parseTag: the field's own name is pushed for a non-squashed embedded struct. */
  function Pushed(f: Field, o: TagOptions, parent: seq<string>): (r: seq<string>)
    requires TagParses(f, o)
    ensures parent <= r && |r| <= |parent| + 1
  {
    match TagOf(f, o, parent)
    case None => parent
    case Some(d) => if !o.squash && !d.squash && IsAnonymousCaredField(f) then parent + [d.origin] else parent
  }

  /** The parent stack after revertAnonymousParentPrefix. */
  function Reverted(f: Field, o: TagOptions, parent: seq<string>): (r: seq<string>)
    requires TagParses(f, o)
    ensures r <= parent && |parent| <= |r| + 1
  {
    if |parent| == 0 || !f.anonymous then parent
    else
      var t := TagOf(f, o, parent);
      if o.squash || (t.Some? && t.value.squash) then parent else parent[..|parent| - 1]
  }

  lemma RejoinStep(cur: string, toks: seq<string>, i: nat, sep: string)
    requires EscapeOk(cur, toks, i, sep) && EndsInBackslash(cur)
    ensures i + 1 < |toks|
    ensures EscapeOk(DropLast(cur) + sep + toks[i + 1], toks, i + 1, sep)
    ensures Rejoin(cur, toks, i, sep) == Rejoin(DropLast(cur) + sep + toks[i + 1], toks, i + 1, sep)
  {
  }

  lemma RejoinDone(cur: string, toks: seq<string>, i: nat, sep: string)
    requires EscapeOk(cur, toks, i, sep) && !EndsInBackslash(cur)
    ensures Rejoin(cur, toks, i, sep) == (cur, i + 1)
  {
  }

  lemma LabelsStep(settings: map<string, string>, toks: seq<string>, i: nat, sep: string)
    requires i < |toks| && LabelsOk(toks, i, sep)
    ensures EscapeOk(toks[i], toks, i, sep)
    ensures LabelsOk(toks, Rejoin(toks[i], toks, i, sep).1, sep)
    ensures Labels(settings, toks, i, sep) ==
      Labels(ApplyLabel(settings, Rejoin(toks[i], toks, i, sep).0), toks, Rejoin(toks[i], toks, i, sep).1, sep)
  {
  }

  lemma LabelHeadOk(toks: seq<string>, i: nat, sep: string)
    requires i < |toks| && LabelsOk(toks, i, sep)
    ensures EscapeOk(toks[i], toks, i, sep)
  {
  }

  lemma LabelsAdvance(before: map<string, string>, after: map<string, string>, toks: seq<string>, j: nat,
                      lab: string, next: nat, sep: string)
    requires j < |toks| && LabelsOk(toks, j, sep)
    requires EscapeOk(toks[j], toks, j, sep) && Rejoin(toks[j], toks, j, sep) == (lab, next)
    requires after == ApplyLabel(before, lab)
    ensures LabelsOk(toks, next, sep) && Labels(after, toks, next, sep) == Labels(before, toks, j, sep)
  {
    LabelsStep(before, toks, j, sep);
  }

  /**
   * The inner loop of getTag for the label at index `j`: while the label ends
   * in a backslash, the backslash is replaced by the separator and the next
   * token, which is blanked.  Returns the index of the last token swallowed.
   */
  method Unescape(names: array<string>, j: nat, sep: string, ghost toks: seq<string>) returns (i: nat)
    requires j < names.Length == |toks|
    requires forall k :: j <= k < names.Length ==> names[k] == toks[k]
    requires EscapeOk(toks[j], toks, j, sep)
    modifies names
    ensures (names[j], i + 1) == Rejoin(toks[j], toks, j, sep)
    ensures forall k :: i < k < names.Length ==> names[k] == toks[k]
  {
    ghost var target := Rejoin(toks[j], toks, j, sep);
    ghost var cur := toks[j];
    i := j;
    while i < names.Length
      invariant j <= i < names.Length
      invariant forall k :: i < k < names.Length ==> names[k] == toks[k]
      invariant names[j] == cur
      invariant EscapeOk(cur, toks, i, sep)
      invariant Rejoin(cur, toks, i, sep) == target
    {
      if names[j][|names[j]| - 1] != '\\' {
        break;
      }
      RejoinStep(cur, toks, i, sep);
      i := i + 1;
      cur := DropLast(cur) + sep + toks[i];
      names[j] := names[j][..|names[j]| - 1] + sep + names[i];
      names[i] := "";
    }
    RejoinDone(cur, toks, i, sep);
  }

  /**
   * The label loop of getTag over the token slice `names`: the first token,
   * trimmed, is stored under the tag key; every later label, once its escapes
   * are joined, goes through ApplyLabel.
   */
  method ScanLabels(names: array<string>, tagName: string, sep: string, ghost toks: seq<string>)
    returns (settings: map<string, string>)
    requires names[..] == toks && LabelsOk(toks, 1, sep)
    modifies names
    ensures settings == if toks == [] then map[] else Labels(map[tagName := GoStrings.TrimSpace(toks[0])], toks, 1, sep)
  {
    ghost var final := if toks == [] then map[] else Labels(map[tagName := GoStrings.TrimSpace(toks[0])], toks, 1, sep);
    settings := map[];
    var i := 0;
    while i < names.Length
      invariant 0 <= i <= names.Length == |toks|
      invariant forall k :: i <= k < names.Length ==> names[k] == toks[k]
      invariant i == 0 ==> settings == map[]
      invariant i > 0 ==> LabelsOk(toks, i, sep) && Labels(settings, toks, i, sep) == final
    {
      settings, i := ScanStep(names, i, settings, tagName, sep, toks, final);
    }
  }

  /**
   * One turn of the label loop at token `j`: the first token is the flag
   * name, any later one a label with its escaped continuation.  `next` is
   * where the loop goes on.
   */
  method ScanStep(names: array<string>, j: nat, settings: map<string, string>, tagName: string, sep: string,
                  ghost toks: seq<string>, ghost final: map<string, string>)
    returns (result: map<string, string>, next: nat)
    requires j < names.Length == |toks|
    requires forall k :: j <= k < names.Length ==> names[k] == toks[k]
    requires j == 0 ==> settings == map[] && LabelsOk(toks, 1, sep) && final == Labels(map[tagName := GoStrings.TrimSpace(toks[0])], toks, 1, sep)
    requires j > 0 ==> LabelsOk(toks, j, sep) && Labels(settings, toks, j, sep) == final
    modifies names
    ensures j < next <= names.Length
    ensures forall k :: next <= k < names.Length ==> names[k] == toks[k]
    ensures LabelsOk(toks, next, sep) && Labels(result, toks, next, sep) == final
  {
    if j == 0 {
      result := ScanName(names, settings, tagName, toks);
      assert Labels(result, toks, 1, sep) == final;
      return result, j + 1;
    }
    result, next := ScanLabel(names, j, settings, sep, toks, final);
  }

  /** The first token, trimmed, is stored under the tag key. */
  method ScanName(names: array<string>, settings: map<string, string>, tagName: string, ghost toks: seq<string>)
    returns (result: map<string, string>)
    requires 0 < names.Length == |toks| && names[0] == toks[0] && settings == map[]
    ensures result == map[tagName := GoStrings.TrimSpace(toks[0])]
  {
    result := settings[tagName := GoStrings.TrimSpace(names[0])];
  }

  /**
   * One pass of the outer loop from token `j > 0`: swallow the escaped
   * tokens, then store the label.  `i` is the last token swallowed.
   */
  method ScanLabel(names: array<string>, j: nat, settings: map<string, string>, sep: string,
                   ghost toks: seq<string>, ghost final: map<string, string>)
    returns (result: map<string, string>, next: nat)
    requires 0 < j < names.Length == |toks|
    requires forall k :: j <= k < names.Length ==> names[k] == toks[k]
    requires LabelsOk(toks, j, sep) && Labels(settings, toks, j, sep) == final
    modifies names
    ensures j < next <= names.Length
    ensures forall k :: next <= k < names.Length ==> names[k] == toks[k]
    ensures LabelsOk(toks, next, sep) && Labels(result, toks, next, sep) == final
  {
    LabelHeadOk(toks, j, sep);
    var i := Unescape(names, j, sep, toks);
    var lab := names[j];
    result := StoreLabel(settings, lab);
    LabelsAdvance(settings, result, toks, j, lab, i + 1, sep);
    next := i + 1;
  }

  /** One label of getTag's loop stored into the settings map. */
  method StoreLabel(settings: map<string, string>, token: string) returns (result: map<string, string>)
    ensures result == ApplyLabel(settings, token)
  {
    result := settings;
    var values := GoStrings.Split(token, ":");
    var k := GoStrings.TrimSpace(values[0]);
    if |values| >= 2 {
      result := result[k := GoStrings.Join(values[1..], ":")];
    } else if k != "" {
      result := result[k := k];
    }
  }

  /** getTag: nil (None) for an ignored or skipped field, otherwise the field's tag data. */
  method GetTag(field: Field, cfg: FlagConfig) returns (data: Option<TagData>)
    requires TagParses(field, cfg.Options())
    ensures data == TagOf(field, cfg.Options(), cfg.parent)
  {
    var fulls, ok := Lookup(field, cfg.tagName), cfg.tagName in field.tags;
    if cfg.ignoreUntaggedFields && !ok {
      return None;
    }
    var parts := GoStrings.Split(GoStrings.TrimSpace(fulls), cfg.tagLabelSep);
    var names := new string[|parts|](k requires 0 <= k < |parts| => parts[k]);
    var settings := ScanLabels(names, cfg.tagName, cfg.tagLabelSep, parts);
    assert settings == Settings(field, cfg.Options());
    data := TagFromSettings(field, cfg, settings);
  }

  /** The second half of getTag: the settings map read into a tagData, the name prefixed by the parent stack. */
  method TagFromSettings(field: Field, cfg: FlagConfig, settings: map<string, string>) returns (data: Option<TagData>)
    requires TagParses(field, cfg.Options()) && settings == Settings(field, cfg.Options())
    requires !cfg.ignoreUntaggedFields || cfg.tagName in field.tags
    ensures data == TagOf(field, cfg.Options(), cfg.parent)
  {
    ghost var o := cfg.Options();
    var name := if cfg.tagName in settings then settings[cfg.tagName] else "";
    var short := if TagLabelShort in settings then settings[TagLabelShort] else "";
    var desc := if TagLabelDesc in settings then settings[TagLabelDesc] else "";
    var default := if TagLabelDefault in settings then settings[TagLabelDefault] else "";
    var squash := TagLabelSquash in settings;
    if |name| == 0 {
      name := GoStrings.ToLower(field.name);
    }
    assert name == Origin(field, o);
    if name == TagLabelSkip {
      return None;
    }
    var origin := name;
    if !cfg.squash {
      if |cfg.parent| > 0 {
        name := GoStrings.Join(cfg.parent, ".") + "." + name;
      }
    }
    data := Some(TagData(origin, name, short, desc, default, squash));
  }

  /** parseTag: getTag, then the push of an embedded struct's name when neither squash applies. */
  method ParseTag(field: Field, cfg: FlagConfig) returns (data: Option<TagData>)
    requires TagParses(field, cfg.Options())
    modifies cfg`parent
    ensures data == TagOf(field, cfg.Options(), old(cfg.parent))
    ensures cfg.parent == Pushed(field, cfg.Options(), old(cfg.parent))
  {
    data := GetTag(field, cfg);
    if data == None {
      return None;
    }
    if !cfg.squash && !data.value.squash && IsAnonymousCaredField(field) {
      cfg.parent := cfg.parent + [data.value.origin];
    }
  }

  /** revertAnonymousParentPrefix: the pop that undoes parseTag's push. */
  method RevertAnonymousParentPrefix(field: Field, cfg: FlagConfig)
    requires TagParses(field, cfg.Options())
    modifies cfg`parent
    ensures cfg.parent == Reverted(field, cfg.Options(), old(cfg.parent))
  {
    if |cfg.parent| == 0 || !field.anonymous {
      return;
    }
    var tagInfo := GetTag(field, cfg);
    var squash := cfg.squash || (tagInfo != None && tagInfo.value.squash);
    if squash {
      return;
    }
    cfg.parent := cfg.parent[..|cfg.parent| - 1];
  }

  // ---------------------------------------------------------------------------
  // Properties of the tag parser
  // ---------------------------------------------------------------------------

  /**
   * A label is cut at its FIRST colon: the key is the trimmed text before it
   * and the value is everything after it, later colons included and not
   * trimmed.  Without a colon a non-empty trimmed key is stored as its own
   * value and an empty one stores nothing.
   */
  lemma {:induction false} ApplyLabelFirstColon(settings: map<string, string>, token: string)
    ensures var m := GoStrings.Index(token, ":");
      ApplyLabel(settings, token) ==
        if m >= 0 then settings[GoStrings.TrimSpace(token[..m]) := token[m + 1..]]
        else if GoStrings.TrimSpace(token) != "" then settings[GoStrings.TrimSpace(token) := GoStrings.TrimSpace(token)]
        else settings
  {
    if GoStrings.Index(token, ":") >= 0 {
      ApplyLabelColon(settings, token);
    } else {
      ApplyLabelNoColon(settings, token);
    }
  }

  lemma ApplyLabelColon(settings: map<string, string>, token: string)
    requires GoStrings.Index(token, ":") >= 0
    ensures var m := GoStrings.Index(token, ":");
      ApplyLabel(settings, token) == settings[GoStrings.TrimSpace(token[..m]) := token[m + 1..]]
  {
    var m := GoStrings.Index(token, ":");
    var values := GoStrings.Split(token, ":");
    var key, value := token[..m], token[m + 1..];
    assert |values| >= 2 && values[0] == key && GoStrings.Join(values[1..], ":") == value by {
      GoStrings.SplitAtFirst(token, ":");
      assert |":"| == 1;
    }
    calc {
      ApplyLabel(settings, token);
      settings[GoStrings.TrimSpace(values[0]) := GoStrings.Join(values[1..], ":")];
      settings[GoStrings.TrimSpace(key) := value];
    }
  }

  lemma ApplyLabelNoColon(settings: map<string, string>, token: string)
    requires GoStrings.Index(token, ":") < 0
    ensures ApplyLabel(settings, token) ==
      if GoStrings.TrimSpace(token) != "" then settings[GoStrings.TrimSpace(token) := GoStrings.TrimSpace(token)]
      else settings
  {
    GoStrings.SplitAtFirst(token, ":");
  }

  /**
   * With a separator that does not itself end in a backslash, the escape loop
   * started on token `i` swallows exactly the tokens up to and including the
   * first one (after `i`) that does not end in a backslash: every token it
   * joins but the last ends in one, the last does not.
   */
  lemma {:induction false} RejoinRun(cur: string, toks: seq<string>, i: nat, sep: string)
    requires sep != [] && sep[|sep| - 1] != '\\'
    requires EscapeOk(cur, toks, i, sep)
    ensures var n := Rejoin(cur, toks, i, sep).1;
      (n == i + 1 <==> !EndsInBackslash(cur)) &&
      (n > i + 1 ==> EndsInBackslash(cur) && !EndsInBackslash(toks[n - 1])) &&
      (forall k :: i < k < n - 1 ==> EndsInBackslash(toks[k]))
    decreases |toks| - i
  {
    if EndsInBackslash(cur) {
      var next := DropLast(cur) + sep + toks[i + 1];
      assert EndsInBackslash(next) <==> EndsInBackslash(toks[i + 1]) by {
        if toks[i + 1] == [] {
          assert next[|next| - 1] == sep[|sep| - 1];
        } else {
          assert next[|next| - 1] == toks[i + 1][|toks[i + 1]| - 1];
        }
      }
      RejoinRun(next, toks, i + 1, sep);
    }
  }

  /**
   * The parent stack only affects the flag name: whether a field is skipped,
   * and its origin, shorthand, description, default and squash mark, are the
   * same under every stack, and the name is the origin prefixed by the stack.
   */
  lemma TagOfParentIndependent(f: Field, o: TagOptions, p: seq<string>, q: seq<string>)
    requires TagParses(f, o)
    ensures TagOf(f, o, p).Some? <==> TagOf(f, o, q).Some?
    ensures TagOf(f, o, p).Some? ==>
      TagOf(f, o, p).value == TagOf(f, o, q).value.(name := Prefixed(o, p, TagOf(f, o, q).value.origin))
  {
  }

  /** With squash on, or at the top level, the flag name is the origin itself. */
  lemma UnprefixedName(f: Field, o: TagOptions, parent: seq<string>)
    requires TagParses(f, o) && TagOf(f, o, parent).Some?
    requires o.squash || parent == []
    ensures TagOf(f, o, parent).value.name == TagOf(f, o, parent).value.origin
  {
  }

  /**
   * With squash off, the name of a field under a non-empty stack is the stack
   * joined with dots, a dot, and the origin.
   */
  lemma PrefixedName(f: Field, o: TagOptions, parent: seq<string>)
    requires TagParses(f, o) && TagOf(f, o, parent).Some?
    requires !o.squash && parent != []
    ensures TagOf(f, o, parent).value.name == GoStrings.Join(parent, ".") + "." + TagOf(f, o, parent).value.origin
  {
  }

  /**
   * revertAnonymousParentPrefix undoes parseTag: for a field that is not
   * skipped and that the walk recurses into (struct or pointer kind), popping
   * after pushing gives back the stack it started from.
   */
  lemma PushThenRevert(f: Field, o: TagOptions, parent: seq<string>)
    requires TagParses(f, o) && TagOf(f, o, parent).Some?
    requires f.kind.Struct? || f.kind.Pointer?
    ensures Reverted(f, o, Pushed(f, o, parent)) == parent
  {
    var pushed := Pushed(f, o, parent);
    TagOfParentIndependent(f, o, parent, pushed);
    if pushed != parent {
      assert pushed[..|pushed| - 1] == parent;
    }
  }

  /** A named (non-embedded) struct field neither pushes nor pops: it never adds a prefix. */
  lemma NamedFieldKeepsStack(f: Field, o: TagOptions, parent: seq<string>)
    requires TagParses(f, o) && !f.anonymous
    ensures Pushed(f, o, parent) == parent && Reverted(f, o, parent) == parent
  {
  }

  /**
   * A field without the tag key, when untagged fields are not ignored, is read
   * like an empty tag: its flag is named after the lower-cased field name,
   * with no shorthand, description or default.  (The empty name is stored
   * under the tag key, so a tag key spelled `squash` marks the field squashed.)
   */
  lemma UntaggedField(f: Field, o: TagOptions)
    requires !o.ignoreUntaggedFields && o.tagName !in f.tags
    ensures TagParses(f, o)
    ensures var lower := GoStrings.ToLower(f.name);
      TagOf(f, o, []) ==
        if lower == TagLabelSkip then None
        else Some(TagData(lower, lower, "", "", "", o.tagLabelSep != "" && o.tagName == TagLabelSquash))
  {
    assert GoStrings.TrimSpace("") == "";
    if o.tagLabelSep != "" {
      GoStrings.SplitAtFirst("", o.tagLabelSep);
      assert Tokens(f, o) == [""];
      assert Settings(f, o) == map[o.tagName := ""];
    } else {
      assert Tokens(f, o) == [];
      assert Settings(f, o) == map[];
    }
  }

  /** A field without the tag key is skipped when untagged fields are ignored. */
  lemma IgnoredUntaggedField(f: Field, o: TagOptions, parent: seq<string>)
    requires o.ignoreUntaggedFields && o.tagName !in f.tags
    ensures TagParses(f, o) && TagOf(f, o, parent) == None
  {
    if o.tagLabelSep != "" {
      GoStrings.SplitAtFirst("", o.tagLabelSep);
    }
    assert GoStrings.TrimSpace("") == "";
  }

  /** The tag `-` skips the field, whatever the stack (unless the separator is `-` itself). */
  lemma SkipTag(f: Field, o: TagOptions, parent: seq<string>)
    requires o.tagName in f.tags && f.tags[o.tagName] == TagLabelSkip
    requires o.tagLabelSep != "" && o.tagLabelSep != TagLabelSkip
    ensures TagParses(f, o) && TagOf(f, o, parent) == None
  {
    var sep := o.tagLabelSep;
    assert GoStrings.TrimSpace("-") == "-" by {
      GoStrings.TrimSpaceKeepsTrimmed("-");
    }
    assert !GoStrings.OccursAt("-", sep, 0);
    GoStrings.SplitAtFirst("-", sep);
    assert Tokens(f, o) == ["-"];
  }

  /** A label ` key:rest` stores `rest`, untrimmed and colons included, under `key`. */
  lemma KeyLabel(settings: map<string, string>, key: string, rest: string)
    requires key != [] && !GoStrings.IsSpace(key[0]) && !GoStrings.IsSpace(key[|key| - 1])
    requires forall k :: 0 <= k < |key| ==> key[k] != ':'
    ensures ApplyLabel(settings, " " + key + ":" + rest) == settings[key := rest]
  {
    var head := " " + key;
    var token := head + ":" + rest;
    var m := |head|;
    assert forall k :: 1 <= k < m ==> head[k] == key[k - 1];
    assert forall k :: 0 <= k < m ==> token[k] == head[k];
    GoStrings.IndexChar(token, ':', m);
    ApplyLabelColon(settings, token);
    assert token[..m] == head;
    GoStrings.TrimOneLeadingSpace(head);
    assert head[1..] == key;
    assert token[m + 1..] == rest;
  }

  /** The `default::27071` label of the full example: the value keeps its leading colon. */
  lemma DefaultColonExample()
    ensures ApplyLabel(map[], " default:" + ":27071") == map["default" := ":27071"]
  {
    assert " default:" + ":27071" == " " + "default" + ":" + ":27071";
    KeyLabel(map[], "default", ":27071");
  }

  /**
   * The escaped description of the full example: the two backslashes join
   * three tokens with the separator, and the label keeps the joined text.
   */
  lemma EscapedDescExample()
    ensures var text := "enable debug model";
      var toks := [" desc:" + text + "\\", "false to disable; \\", "please"];
      var joined := " desc:" + text + "," + "false to disable; " + "," + "please";
      EscapeOk(toks[0], toks, 0, ",") && Rejoin(toks[0], toks, 0, ",") == (joined, 3) &&
      ApplyLabel(map[], joined) == map["desc" := text + "," + "false to disable; " + "," + "please"]
  {
    EscapedDescRejoin();
    var rest := "enable debug model" + "," + "false to disable; " + "," + "please";
    assert " desc:" + "enable debug model" + "," + "false to disable; " + "," + "please" == " " + "desc" + ":" + rest;
    KeyLabel(map[], "desc", rest);
  }

  lemma EscapedDescRejoin()
    ensures var text := "enable debug model";
      var toks := [" desc:" + text + "\\", "false to disable; \\", "please"];
      EscapeOk(toks[0], toks, 0, ",") &&
      Rejoin(toks[0], toks, 0, ",") == (" desc:" + text + "," + "false to disable; " + "," + "please", 3)
  {
    var text := "enable debug model";
    var toks := [" desc:" + text + "\\", "false to disable; \\", "please"];
    var a := " desc:" + text;
    var one := a + "," + "false to disable; " + "\\";
    var two := a + "," + "false to disable; " + "," + "please";
    assert DropLast(toks[0]) == a;
    assert DropLast(one) == a + "," + "false to disable; ";
    assert toks[1] == "false to disable; " + "\\";
    assert DropLast(toks[0]) + "," + toks[1] == one;
    assert DropLast(one) + "," + toks[2] == two;
    assert EscapeOk(two, toks, 2, ",") && Rejoin(two, toks, 2, ",") == (two, 3);
    RejoinStep(one, toks, 1, ",");
    RejoinStep(toks[0], toks, 0, ",");
  }

  // ---------------------------------------------------------------------------
  // The last label with a key decides its value
  // ---------------------------------------------------------------------------

  /** The labels from token `i` on, each with its escaped separators rejoined, in order. */
  function LabelTokens(toks: seq<string>, i: nat, sep: string): seq<string>
    requires LabelsOk(toks, i, sep)
    decreases |toks| - i
  {
    if i >= |toks| then []
    else
      var r := Rejoin(toks[i], toks, i, sep);
      [r.0] + LabelTokens(toks, r.1, sep)
  }

  /** The settings after the given labels, applied in order. */
  function ApplyLabels(settings: map<string, string>, labels: seq<string>): map<string, string>
    decreases |labels|
  {
    if labels == [] then settings else ApplyLabels(ApplyLabel(settings, labels[0]), labels[1..])
  }

  /** The key a label token names: the trimmed text before its first colon. */
  function LabelKey(token: string): string
  {
    GoStrings.TrimSpace(GoStrings.Split(token, ":")[0])
  }

  /** Whether a label token stores anything: it has a colon, or its key is not empty. */
  predicate Stores(token: string)
  {
    |GoStrings.Split(token, ":")| >= 2 || LabelKey(token) != ""
  }

  /** The value a storing label token stores under its key. */
  function LabelValue(token: string): string
  {
    var values := GoStrings.Split(token, ":");
    if |values| >= 2 then GoStrings.Join(values[1..], ":") else LabelKey(token)
  }

  /** The labels of a tag are applied one after the other, in order. */
  lemma {:induction false} LabelsAreApplyLabels(settings: map<string, string>, toks: seq<string>, i: nat, sep: string)
    requires LabelsOk(toks, i, sep)
    ensures Labels(settings, toks, i, sep) == ApplyLabels(settings, LabelTokens(toks, i, sep))
    decreases |toks| - i
  {
    if i < |toks| {
      var r := Rejoin(toks[i], toks, i, sep);
      LabelsAreApplyLabels(ApplyLabel(settings, r.0), toks, r.1, sep);
      GoStrings.DropHead(r.0, LabelTokens(toks, r.1, sep));
    }
  }

  /** A key no label stores keeps its value from before the labels. */
  lemma {:induction false} ApplyLabelsUntouched(settings: map<string, string>, labels: seq<string>, key: string)
    requires forall l :: 0 <= l < |labels| ==> !(Stores(labels[l]) && LabelKey(labels[l]) == key)
    ensures var r := ApplyLabels(settings, labels);
      (key in r <==> key in settings) && (key in settings ==> r[key] == settings[key])
    decreases |labels|
  {
    if labels != [] {
      assert !(Stores(labels[0]) && LabelKey(labels[0]) == key);
      ApplyLabelsUntouched(ApplyLabel(settings, labels[0]), labels[1..], key);
    }
  }

  /**
   * A later duplicate key overwrites an earlier one across a whole tag: the
   * value of a key is the one stored by the last label that stores it,
   * whatever labels come between.
   */
  lemma {:induction false} ApplyLabelsLastWins(settings: map<string, string>, labels: seq<string>, j: nat)
    requires j < |labels| && Stores(labels[j])
    requires forall l :: j < l < |labels| ==> !(Stores(labels[l]) && LabelKey(labels[l]) == LabelKey(labels[j]))
    ensures var r := ApplyLabels(settings, labels);
      LabelKey(labels[j]) in r && r[LabelKey(labels[j])] == LabelValue(labels[j])
    decreases |labels|
  {
    var key := LabelKey(labels[j]);
    if j == 0 {
      var after := ApplyLabel(settings, labels[0]);
      assert key in after && after[key] == LabelValue(labels[0]);
      ApplyLabelsUntouched(after, labels[1..], key);
    } else {
      assert labels[1..][j - 1] == labels[j];
      ApplyLabelsLastWins(ApplyLabel(settings, labels[0]), labels[1..], j - 1);
    }
  }

  /**
   * In the settings getTag builds, the value under a key is the one stored by
   * the last label of the tag that stores it.
   */
  lemma SettingsLastLabelWins(f: Field, o: TagOptions, j: nat)
    requires TagParses(f, o) && Tokens(f, o) != []
    requires var labels := LabelTokens(Tokens(f, o), 1, o.tagLabelSep);
      j < |labels| && Stores(labels[j]) &&
      forall l :: j < l < |labels| ==> !(Stores(labels[l]) && LabelKey(labels[l]) == LabelKey(labels[j]))
    ensures var labels := LabelTokens(Tokens(f, o), 1, o.tagLabelSep);
      LabelKey(labels[j]) in Settings(f, o) && Settings(f, o)[LabelKey(labels[j])] == LabelValue(labels[j])
  {
    var toks := Tokens(f, o);
    var first := map[o.tagName := GoStrings.TrimSpace(toks[0])];
    LabelsAreApplyLabels(first, toks, 1, o.tagLabelSep);
    ApplyLabelsLastWins(first, LabelTokens(toks, 1, o.tagLabelSep), j);
  }

  // ---------------------------------------------------------------------------
  // A label with the tag key overrides the name, even `-`
  // ---------------------------------------------------------------------------

  /** The field `X` tagged `flag:"-,flag:x"`. */
  const OverriddenField: Field := Field("X", map[TagName := "-,flag:x"], false, String)

  /** Splitting on the first separator of a text that has exactly one. */
  lemma SplitOnce(s: string, m: nat)
    requires m < |s| && s[m] == ','
    requires forall k :: 0 <= k < |s| && k != m ==> s[k] != ','
    ensures GoStrings.Split(s, ",") == [s[..m], s[m + 1..]]
  {
    GoStrings.IndexChar(s, ',', m);
    assert [','] == ",";
    GoStrings.SplitCons(s, ",");
    var rest := s[m + 1..];
    assert forall k :: 0 <= k < |rest| ==> rest[k] == s[m + 1 + k];
    GoStrings.IndexChar(rest, ',', -1);
    GoStrings.SplitAtFirst(rest, ",");
  }

  /** The tag text cuts into the name token `-` and the label `flag:x`. */
  lemma OverriddenTokens()
    ensures Tokens(OverriddenField, Defaults) == ["-", "flag:x"]
  {
    var t := "-,flag:x";
    assert Lookup(OverriddenField, Defaults.tagName) == t;
    assert GoStrings.TrimSpace(t) == t by {
      GoStrings.TrimSpaceKeepsTrimmed(t);
    }
    SplitOnce(t, 1);
    assert t[..1] == "-" && t[2..] == "flag:x";
  }

  /** A label `key:value` with a trimmed, colon-free key stores under that key. */
  lemma KeyValueKey(key: string, v: string)
    requires key != [] && GoStrings.Trimmed(key)
    requires forall k :: 0 <= k < |key| ==> key[k] != ':'
    ensures Stores(key + ":" + v) && LabelKey(key + ":" + v) == key
  {
    var l := key + ":" + v;
    assert forall k :: 0 <= k < |key| ==> l[k] == key[k];
    GoStrings.IndexChar(l, ':', |key|);
    GoStrings.SplitAtFirst(l, ":");
    assert l[..|key|] == key;
    GoStrings.TrimSpaceKeepsTrimmed(key);
  }

  /** A label `key:value` with a trimmed, colon-free key stores the whole rest under that key. */
  lemma KeyValueLabel(settings: map<string, string>, key: string, v: string)
    requires key != [] && GoStrings.Trimmed(key)
    requires forall k :: 0 <= k < |key| ==> key[k] != ':'
    ensures ApplyLabel(settings, key + ":" + v) == settings[key := v]
  {
    var l := key + ":" + v;
    assert forall k :: 0 <= k < |key| ==> l[k] == key[k];
    GoStrings.IndexChar(l, ':', |key|);
    ApplyLabelColon(settings, l);
    assert l[..|key|] == key && l[|key| + 1..] == v;
    GoStrings.TrimSpaceKeepsTrimmed(key);
  }

  /**
   * A tag of a name token and one `key:value` label: it parses, the label
   * stores `value` under `key`, and the settings are the trimmed name under
   * the tag key with that one store after it.
   */
  lemma NameAndKeyValue(f: Field, o: TagOptions, name: string, key: string, v: string)
    requires key != [] && GoStrings.Trimmed(key)
    requires forall k :: 0 <= k < |key| ==> key[k] != ':'
    requires v != [] && v[|v| - 1] != '\\'
    requires Tokens(f, o) == [name, key + ":" + v]
    ensures TagParses(f, o)
    ensures LabelTokens(Tokens(f, o), 1, o.tagLabelSep) == [key + ":" + v]
    ensures Stores(key + ":" + v) && LabelKey(key + ":" + v) == key
    ensures Settings(f, o) == map[o.tagName := GoStrings.TrimSpace(name)][key := v]
  {
    var l := key + ":" + v;
    assert l[|l| - 1] == v[|v| - 1];
    OneLabel(f, o);
    KeyValueKey(key, v);
    KeyValueLabel(map[o.tagName := GoStrings.TrimSpace(name)], key, v);
  }

  /** The keys `flag` and `short` and the one-letter values used below are valid `key:value` parts. */
  lemma PlainKeyValue(key: string, v: string)
    requires key == TagName || key == TagLabelShort
    requires |v| == 1 && v[0] != '\\'
    ensures key != [] && GoStrings.Trimmed(key) && v != [] && v[|v| - 1] != '\\'
    ensures forall k :: 0 <= k < |key| ==> key[k] != ':'
  {
  }

  /** A tag whose tokens are `-` and `flag:x` stores only `x` under the tag key. */
  lemma OverrideSettings(f: Field, o: TagOptions, key: string, v: string)
    requires o.tagName == TagName && key == TagName && v == "x" && Tokens(f, o) == ["-", key + ":" + v]
    ensures TagParses(f, o) && Settings(f, o) == map[TagName := "x"]
  {
    PlainKeyValue(key, v);
    NameAndKeyValue(f, o, "-", key, v);
    var name := GoStrings.TrimSpace("-");
    assert map[key := name][key := v] == map[TagName := "x"];
  }

  /**
   * The first token `-` would skip the field, but the later label `flag:x`
   * stores `x` under the tag key itself, so the field gets the flag `x`.
   */
  lemma KeyLabelOverridesSkip()
    ensures TagParses(OverriddenField, Defaults)
    ensures TagOf(OverriddenField, Defaults, []) == Some(TagData("x", "x", "", "", "", false))
  {
    assert TagParses(OverriddenField, Defaults) && Settings(OverriddenField, Defaults) == map[TagName := "x"] by {
      OverriddenTokens();
      assert "flag:x" == TagName + ":" + "x";
      OverrideSettings(OverriddenField, Defaults, TagName, "x");
    }
  }

  // ---------------------------------------------------------------------------
  // A tag getTag cannot read
  // ---------------------------------------------------------------------------

  /** The field `A` tagged `flag:"a,"`: its one label token is empty. */
  const EmptyLabelField: Field := Field("A", map[TagName := "a,"], false, String)

  /** getTag would read the last byte of the empty label and index out of range. */
  lemma EmptyLabelDoesNotParse()
    ensures !TagParses(EmptyLabelField, Defaults)
  {
    var t := "a,";
    assert Lookup(EmptyLabelField, Defaults.tagName) == t;
    assert GoStrings.TrimSpace(t) == t by {
      GoStrings.TrimSpaceKeepsTrimmed(t);
    }
    SplitOnce(t, 1);
    assert t[..1] == "a" && t[2..] == "";
    assert Tokens(EmptyLabelField, Defaults) == ["a", ""];
  }

  // ---------------------------------------------------------------------------
  // The first token names the field
  // ---------------------------------------------------------------------------

  /** The trimmed first token of the tag, or "" when there is none. */
  function FirstToken(f: Field, o: TagOptions): string
  {
    var toks := Tokens(f, o);
    if toks == [] then "" else GoStrings.TrimSpace(toks[0])
  }

  /** No label of the tag stores anything under the tag key itself. */
  predicate NoLabelStoresTagKey(f: Field, o: TagOptions)
    requires TagParses(f, o)
  {
    var labels := LabelTokens(Tokens(f, o), 1, o.tagLabelSep);
    forall l :: 0 <= l < |labels| ==> !(Stores(labels[l]) && LabelKey(labels[l]) == o.tagName)
  }

  /**
   * Unless a later label stores the tag key, the first token decides the
   * name: the trimmed first token, or the lower-cased field name when that
   * is empty.  The field is skipped exactly when untagged fields are ignored
   * and the tag key is absent, or when that name is `-`, whatever labels follow.
   */
  lemma FirstTokenNames(f: Field, o: TagOptions, parent: seq<string>)
    requires TagParses(f, o) && NoLabelStoresTagKey(f, o)
    ensures var name := if FirstToken(f, o) == "" then GoStrings.ToLower(f.name) else FirstToken(f, o);
      Origin(f, o) == name &&
      (TagOf(f, o, parent).None? <==> (o.ignoreUntaggedFields && o.tagName !in f.tags) || name == TagLabelSkip)
  {
    var toks := Tokens(f, o);
    if toks != [] {
      var start := map[o.tagName := GoStrings.TrimSpace(toks[0])];
      LabelsAreApplyLabels(start, toks, 1, o.tagLabelSep);
      ApplyLabelsUntouched(start, LabelTokens(toks, 1, o.tagLabelSep), o.tagName);
    }
  }

  /** A tag of a name token and one label without an escape: the label is applied once to the name. */
  lemma OneLabel(f: Field, o: TagOptions)
    requires var toks := Tokens(f, o);
      |toks| == 2 && toks[1] != [] && !EndsInBackslash(toks[1])
    ensures TagParses(f, o)
    ensures var toks := Tokens(f, o);
      LabelTokens(toks, 1, o.tagLabelSep) == [toks[1]] &&
      Settings(f, o) == ApplyLabel(map[o.tagName := GoStrings.TrimSpace(toks[0])], toks[1])
  {
    var toks := Tokens(f, o);
    var sep := o.tagLabelSep;
    assert EscapeOk(toks[1], toks, 1, sep) && Rejoin(toks[1], toks, 1, sep) == (toks[1], 2);
    assert LabelsOk(toks, 1, sep);
    var start := map[o.tagName := GoStrings.TrimSpace(toks[0])];
    assert Labels(ApplyLabel(start, toks[1]), toks, 2, sep) == ApplyLabel(start, toks[1]);
    assert Labels(start, toks, 1, sep) == ApplyLabel(start, toks[1]);
  }

  /** The field `X` tagged `flag:"-,short:x"`. */
  const DashShortField: Field := Field("X", map[TagName := "-,short:x"], false, String)

  lemma DashShortTokens()
    ensures Tokens(DashShortField, Defaults) == ["-", "short:x"]
  {
    var t := "-,short:x";
    assert Lookup(DashShortField, Defaults.tagName) == t;
    assert GoStrings.TrimSpace(t) == t by {
      GoStrings.TrimSpaceKeepsTrimmed(t);
    }
    SplitOnce(t, 1);
    assert t[..1] == "-" && t[2..] == "short:x";
  }

  /** A tag whose tokens are `-` and `short:x` is skipped: its one label does not store the tag key. */
  lemma DashShortSkips(f: Field, o: TagOptions, parent: seq<string>, key: string, v: string)
    requires o.tagName == TagName && key == TagLabelShort && v == "x" && Tokens(f, o) == ["-", key + ":" + v]
    ensures TagParses(f, o) && TagOf(f, o, parent) == None
  {
    PlainKeyValue(key, v);
    NameAndKeyValue(f, o, "-", key, v);
    assert NoLabelStoresTagKey(f, o);
    GoStrings.TrimSpaceKeepsTrimmed("-");
    assert FirstToken(f, o) == "-";
    FirstTokenNames(f, o, parent);
  }

  /** A first token `-` skips the field even with other labels after it. */
  lemma DashWithLabelsSkipped(parent: seq<string>)
    ensures TagParses(DashShortField, Defaults)
    ensures TagOf(DashShortField, Defaults, parent) == None
  {
    DashShortTokens();
    assert "short:x" == TagLabelShort + ":" + "x";
    DashShortSkips(DashShortField, Defaults, parent, TagLabelShort, "x");
  }

  /** The field `LongName` tagged `flag:",short:N"`. */
  const ShortOnlyField: Field := Field("LongName", map[TagName := ",short:N"], false, String)

  lemma ShortOnlyTokens()
    ensures Tokens(ShortOnlyField, Defaults) == ["", "short:N"]
  {
    var t := ",short:N";
    assert Lookup(ShortOnlyField, Defaults.tagName) == t;
    assert GoStrings.TrimSpace(t) == t by {
      GoStrings.TrimSpaceKeepsTrimmed(t);
    }
    SplitOnce(t, 0);
    assert t[..0] == "" && t[1..] == "short:N";
  }

  /** A tag whose tokens are an empty name and `short:N` stores an empty name and the shorthand `N`. */
  lemma ShortOnlySettings(f: Field, o: TagOptions, key: string, v: string)
    requires o.tagName == TagName && key == TagLabelShort && v == "N" && Tokens(f, o) == ["", key + ":" + v]
    ensures TagParses(f, o) && Settings(f, o) == map[TagName := "", TagLabelShort := "N"]
  {
    assert TagParses(f, o) && Settings(f, o) == map[TagName := ""][TagLabelShort := "N"] by {
      PlainKeyValue(key, v);
      NameAndKeyValue(f, o, "", key, v);
      assert GoStrings.TrimSpace("") == "";
    }
  }

  lemma LongNameLower()
    ensures GoStrings.ToLower("LongName") == "longname"
  {
  }

  /** `flag:",short:N"` on `LongName` gives `--longname` with the shorthand `-N`. */
  lemma ShortOnlyExample()
    ensures TagParses(ShortOnlyField, Defaults)
    ensures TagOf(ShortOnlyField, Defaults, []) == Some(TagData("longname", "longname", "N", "", "", false))
  {
    var settings := map[TagName := "", TagLabelShort := "N"];
    assert TagParses(ShortOnlyField, Defaults) && Settings(ShortOnlyField, Defaults) == settings by {
      ShortOnlyTokens();
      assert "short:N" == TagLabelShort + ":" + "N";
      ShortOnlySettings(ShortOnlyField, Defaults, TagLabelShort, "N");
    }
    assert Origin(ShortOnlyField, Defaults) == "longname" by {
      LongNameLower();
    }
  }
}
