# autoflags: struct tags to command-line flags

autoflags turns the fields of a Go struct into cobra/pflag command-line flags
(`BindFlags`) and copies the values viper holds for those flags back into the
struct (`ReadFlags`). Each field's struct tag (key `flag` by default) is read by
`getTag`:

- the text is trimmed and cut on the label separator (`,` by default);
- the first token, trimmed, is the flag name;
- each later token is a label `key` or `key:value` (`short`, `desc`,
  `default`, `squash`); a label token ending in `\` is joined to the next
  token through the separator;
- an empty name falls back to the lower-cased field name, and the name `-`
  skips the field.

Embedded structs are flattened by default (`squash`). When flattening is off,
an embedded struct or struct pointer that is not marked `squash` pushes its
name onto the config's `parent` stack, and the flags below it are named
`parent.joined.by.dots.name`; a deferred `revertAnonymousParentPrefix` pops it
again. `bindFlags` and `readFlags` visit the fields in declaration order,
dispatch on each field's kind, recurse into structs and pointers to structs,
and stop at the first unsupported field.

The model:

- `wrappers.dfy`: `Option`.
- `gostrings.dfy`, `gostrconv.dfy`: the parts of Go's `strings` package
  (`TrimSpace`, `ToLower`, `Index`, `Count`, `Split`, `Join`) and
  `strconv.ParseInt(s, 10, 64)` that the core relies on, stated once.
- `stringx.dfy`: `ToBool`, `Atoi`, `AtoSlice` and `Split` of lib/stringx.
- `descriptor.dfy`: a descriptor datatype standing in for reflection (field
  name, tags, embedded or not, kind; struct kinds carry their fields, pointer
  kinds their pointee or `None` for nil).
- `config.dfy`: `FlagConfig` as a class whose options and `parent` stack are
  fields, the option constructors and `defaultFlagConfig`.
- `tag.dfy`: `TagOf`, the specification of `getTag`, and the imperative
  `GetTag` that rewrites its token array in place in nested loops and fills a
  settings map, proved equal to it; `ParseTag` (push) and
  `RevertAnonymousParentPrefix` (pop).
- `walk.dfy`: `WalkFrom`/`WalkField`/`Dispatch`, the specification of the
  walk in bind and read mode. It yields the flags handled (kind, tag data,
  field path), the error returned, and the parent stack afterwards.
- `binder.dfy`: the flag set as a class holding a sequence of registrations,
  and the recursive `bindFlags` family of methods, each proved to register
  exactly what the walk names.
- `reader.dfy`: the struct being read as a map from field path to value, and
  the `readFlags` family of methods. Viper's typed getters are the parameter
  `get`.

Behaviour worth knowing:

- Only an embedded (anonymous) struct or pointer field pushes a prefix. A
  named struct field `Child Child` adds no `child.` prefix
  (`Tag.NamedFieldKeepsStack`).
- The tag documentation at flag.go:24 says `-` skips the field. A later
  label whose key is the tag key itself overwrites the name taken from the
  first token, so `flag:"-,flag:x"` is not skipped and is named `x`
  (`Tag.KeyLabelOverridesSkip`).
- `Atoi` does not return 0 for every text that is not a number.
  `strconv.ParseInt` reports a range error before it looks at a later bad
  character, so `"99999999999999999999x"` yields the int64 maximum
  (`GoStrconv.ParseIntOverflowBeforeSyntaxError`).
- `readFlags` never pushes onto the stack, so with flattening off a field
  bound as `--base.name` is read back from viper under `name`
  (`Walk.BindReadNamesDiffer`). With flattening on (the default) the two
  walks coincide (`Walk.SquashedBindIsRead`).
- A field that getTag skips is skipped before its kind is looked at, so the
  tags below a skipped struct are never read (`Walk.SkippedSubtreeIgnored`).
- A struct that reaches itself through a non-nil pointer (`type Node struct{
  Next *Node }` with `n.Next = &n`) makes bindFlags and readFlags recurse
  without end through bindStructPtr and readStructPtr, so they never return.
  The descriptor is a finite tree and cannot express such a value.

## Model

| member | source | states |
|---|---|---|
| GoStrings.TrimSpace | flag.go:441 | the result has no leading or trailing white space, is no longer than the input, and is empty for all-space input |
| GoStrings.TrimSpaceStripsEnds | flag.go:441 | the result is the slice of the input that starts at its first non-space rune, and only white space lies before and after that slice |
| GoStrings.TrimSpacePadded | flag.go:441 | white space added on either side of a trimmed text is removed again, and nothing else is |
| GoStrings.TrimSpaceKeepsTrimmed | lib/stringx/string.go:53 | trimming already-trimmed text changes nothing (TrimSpace is idempotent) |
| GoStrings.ToLower | flag.go:478-480 | same length; every character lower-cased (A-Z shifted by 32, everything else unchanged) |
| GoStrings.Index | flag.go:459 | -1 or a position at which the separator occurs and fits inside the text |
| GoStrings.IndexFirst | flag.go:459 | the separator occurs nowhere before the returned position, and nowhere at all when -1 is returned |
| GoStrings.IndexChar | flag.go:459 | for a one-character separator, Index is exactly the first position of that character, or -1 when absent |
| GoStrings.Split | flag.go:441 | a non-empty separator gives at least one piece; the empty separator gives one piece per character |
| GoStrings.SplitCount | lib/stringx/string.go:38 | the number of pieces is the number of separator occurrences plus one |
| GoStrings.JoinSplit | flag.go:462 | joining the pieces with the separator gives the text back, for every separator including the empty one |
| GoStrings.JoinExplode | flag.go:441 | with the empty separator (a tag label separator of `""`), the one-rune pieces glue back to the text |
| GoStrings.SplitPiecesAvoidSep | flag.go:441 | no piece contains the separator |
| GoStrings.SplitAtFirst | flag.go:459-462 | without a separator the split is the whole text; otherwise the first piece is the text before the first separator and the remaining pieces rejoin to the text after it |
| GoStrconv.ParseInt | lib/stringx/string.go:32 | the result always lies in the int64 range |
| GoStrconv.ParseIntDecimal | lib/stringx/string.go:32 | an optionally signed run of decimal digits yields its value, clamped to the int64 range |
| GoStrconv.ParseIntMalformed | lib/stringx/string.go:32 | any other text yields 0 when its leading digits fit in 64 bits (the discarded syntax error) |
| GoStrconv.ParseIntOverflowBeforeSyntaxError | lib/stringx/string.go:32 | twenty nines followed by `x` yield the int64 maximum, not 0 |
| GoStrconv.ScanDigitsExact | lib/stringx/string.go:32 | scanning an all-digit text gives its decimal value, or a range error when it exceeds the uint64 maximum |
| GoStrconv.ScanDigitsSyntax | lib/stringx/string.go:32 | a bad character after digits that fit is a syntax error |
| GoStrconv.OverflowPrefixSaturates | lib/stringx/string.go:32 | leading digits beyond the uint64 maximum are a range error whatever follows |
| GoStrconv.Wrap | lib/stringx/string.go:33 | the conversion `T(vInt)`: the result lies in the signed range of the width, equals the input when it is already in range, and differs from it by a multiple of 2^bits |
| Stringx.ToBool | lib/stringx/string.go:15-22 | true exactly when the text is `t` or `true` in any letter case; so false for the empty text, `1` or `yes` |
| Stringx.Atoi | lib/stringx/string.go:31-34 | the result fits the width; a decimal text yields its value clamped to int64 then wrapped to the width (its exact value when that fits); malformed text whose leading digits fit yields 0 |
| Stringx.AtoSlice | lib/stringx/string.go:37-44 | the append loop returns exactly AtoiPieces: one element per separated piece, in order, element k being Atoi of piece k |
| Stringx.AtoiPieces | lib/stringx/string.go:37-44 | the specification of AtoSlice: one element per separated piece (separator count + 1 for a non-empty separator), in order, element k being Atoi of piece k |
| Stringx.TrimmedSplit | lib/stringx/string.go:47-57 | as many elements as the pieces of the trimmed input, none with leading or trailing white space |
| Stringx.Split | lib/stringx/string.go:47-57 | the loop over the pieces, trimming each, returns exactly TrimmedSplit |
| Stringx.TrimInPlace | lib/stringx/string.go:51-54 | rewriting the backing array in place leaves every element trimmed from its old value |
| Stringx.TrimmedSplitElement | lib/stringx/string.go:51-54 | element k is piece k of the trimmed input with only the white space at its two ends removed |
| Stringx.TrimmedSplitNoSeparator | lib/stringx/string.go:47-57 | a trimmed input without a separator gives the single element that is the trimmed input |
| Stringx.TrimmedSplitBlank | lib/stringx/string.go:47-57 | an empty or all-space input gives `[""]` |
| Stringx.TrimmedSplitJoin | lib/stringx/string.go:47-57 | when every piece is already trimmed, joining the result gives the trimmed input back: order and content are kept |
| Config.ApplyAll | flag.go:279-289 | the options of defaultFlagConfig run in order over the settings; ApplyAllAppend, ApplyAllFrame and LastSquashOptionWins state what that sequence does |
| Config.ApplyAllAppend | flag.go:284-286 | applying two lists of options one after the other is applying their concatenation |
| Config.ApplyAllFrame | flag.go:161-195 | an option changes only its own setting: a setting no option names keeps its value |
| Config.LastSquashOptionWins | flag.go:190-195 | the last WithSquashOption decides the squash setting |
| Config.FlagConfig.constructor | flag.go:279-289 | the options are the defaults (`flag`, `,`, squash on, untagged fields kept) with the given options applied in order; the stack is empty; auto-unmarshal is on exactly when its option was given |
| Config.FlagConfig.ApplyOption | flag.go:161-195 | one option updates the settings as Apply says and leaves the stack unchanged |
| Tag.TagOf | flag.go:432-501 | the specification of getTag: None for an ignored untagged field, and the returned origin is never `-`; GetTag is proved equal to it, and FirstTokenNames, SettingsLastLabelWins and TagOfParentIndependent state what it returns |
| Tag.Rejoin | flag.go:450-457 | the escape loop absorbs at least the current token, never runs past the last one, and ends with a non-empty label not ending in `\` |
| Tag.RejoinRun | flag.go:450-457 | exactly one token is used when it does not end in `\`; otherwise every absorbed token but the last ends in `\` and the last does not |
| Tag.Unescape | flag.go:450-457 | the in-place loop leaves at `names[j]` the rejoined label and stops at the last absorbed token; the tokens after it are untouched |
| Tag.ScanLabels | flag.go:443-467 | the nested loops fill the settings map with the trimmed first token under the tag key, then every rejoined label in order (the Labels specification) |
| Tag.ScanStep | flag.go:444-466 | one pass of the outer loop advances past the tokens it used and keeps the settings on track to the final map |
| Tag.ScanName | flag.go:445-448 | the first token, trimmed, is stored under the tag key and is never escape-joined |
| Tag.ScanLabel | flag.go:450-466 | a label token is rejoined, stored, and the loop resumes after the last absorbed token |
| Tag.StoreLabel | flag.go:459-465 | storing one label token is ApplyLabel |
| Tag.ApplyLabel | flag.go:459-465 | one label into the settings map; ApplyLabelFirstColon gives its first-colon meaning and StoreLabel proves the map update equal to it |
| Tag.ApplyLabelFirstColon | flag.go:459-465 | the key is the trimmed text before the first `:` and the value everything after it, later colons included, untrimmed; a token without `:` stores its key as its own value; an empty key stores nothing |
| Tag.LabelsAreApplyLabels | flag.go:443-466 | the settings loop applies the rejoined labels one after the other, in order |
| Tag.ApplyLabelsUntouched | flag.go:459-466 | a key that no label stores keeps the value it had before the labels, and stays absent if it was absent |
| Tag.ApplyLabelsLastWins | flag.go:459-466 | the value under a key is the one stored by the last label that stores that key, whatever labels come between |
| Tag.SettingsLastLabelWins | flag.go:443-467 | in the settings getTag builds, each key holds the value of the last label of the tag that stores it |
| Tag.KeyLabelOverridesSkip | flag.go:459-485 | `flag:"-,flag:x"` parses and yields the flag `x`: the label `flag:x` overwrites the `-` name before the skip check |
| Tag.EmptyLabelDoesNotParse | flag.go:451 | `flag:"a,"` has an empty label token, whose last byte getTag would index out of range |
| Tag.KeyLabel | flag.go:459-462 | ` key:rest` stores `rest` under `key` |
| Tag.DefaultColonExample | example/full/cmd.go:73 | ` default::27071` stores `:27071` as the default |
| Tag.EscapedDescExample | example/full/cmd.go:75 | the escaped `desc` of the Debug field is rejoined over three tokens and yields a description that contains both commas |
| Tag.GetTag | flag.go:432-501 | the imperative getTag returns exactly TagOf: None for an ignored untagged field or the name `-`, otherwise the name, origin, short, desc, default and squash mark |
| Tag.TagFromSettings | flag.go:469-500 | building the tag data from the settings map returns exactly TagOf |
| Tag.ParseTag | flag.go:412-429 | returns TagOf under the old stack, and pushes the origin exactly when Pushed says (embedded struct or pointer, neither squash set) |
| Tag.RevertAnonymousParentPrefix | flag.go:295-307 | pops the stack exactly when Reverted says: non-empty stack, embedded field, neither squash set |
| Tag.Pushed | flag.go:412-429 | the stack after parseTag: the old stack with at most one name pushed; ParseTag is proved to produce it and PushThenRevert to be undone by Reverted |
| Tag.Reverted | flag.go:295-307 | the stack after revertAnonymousParentPrefix: the old stack with at most its last name popped; RevertAnonymousParentPrefix is proved to produce it |
| Tag.TagOfParentIndependent | flag.go:487-499 | whether a field is skipped, and all its data but the name, do not depend on the stack; the name is the origin prefixed by the stack |
| Tag.UnprefixedName | flag.go:495-499 | with squash on, or an empty stack, the name is the origin |
| Tag.PrefixedName | flag.go:495-499 | with squash off and a non-empty stack, the name is the stack joined by `.`, then `.`, then the origin |
| Tag.PushThenRevert | flag.go:295-307 | for a struct or pointer field, the pop undoes the push exactly |
| Tag.NamedFieldKeepsStack | flag.go:291-293 | a named (non-embedded) field neither pushes nor pops |
| Tag.UntaggedField | flag.go:434-480 | with untagged fields kept, a field without the tag key is named by its lower-cased field name, skipped only when that is `-`, and is squashed only when the tag key is `squash` |
| Tag.IgnoredUntaggedField | flag.go:437-439 | with untagged fields ignored, a field without the tag key yields None |
| Tag.SkipTag | flag.go:483-485 | the tag `-` yields None whatever the stack |
| Tag.FirstTokenNames | flag.go:441-485 | when no later label stores the tag key, the name is the trimmed first token, or the lower-cased field name when that is empty, and the field is skipped exactly when it is an ignored untagged field or that name is `-` |
| Tag.DashWithLabelsSkipped | flag.go:483-485 | `flag:"-,short:x"` is skipped: a first token `-` skips the field whatever labels follow it |
| Tag.ShortOnlyExample | flag.go:28 | `flag:",short:N"` on `LongName` gives the flag `longname` with the shorthand `N` |
| Walk.WalkFrom | flag.go:319-356 | the specification of the field loop of bindFlags and readFlags; WalkFromFlags, BindFromRestoresParent, ReadFromUnprefixed and WalkFromPaths state what it yields, and BindFields and ReadFields are proved equal to it |
| Walk.WalkField | flag.go:320-324 | one field: nothing when getTag skips it, otherwise the switch under the stack parseTag leaves; WalkFieldFlags, BindFieldRestoresParent and WalkFieldPaths state what it yields |
| Walk.Dispatch | flag.go:325-354 | the switch on the field kind; DispatchFlags, BindDispatchRestoresParent and DispatchPaths state what it yields, and BindKind and ReadKind are proved equal to it |
| Walk.Nested | flag.go:503-511 | a struct field: the walk of its fields, then the deferred pop of revertAnonymousParentPrefix |
| Walk.Leaf | flag.go:562-663 | a field with a handler: no error, the stack untouched, and at most one flag, of the handler's kind at the field's path |
| Walk.BindTop | flag.go:311-317 | bindFlags on a value: `v0 must be pointer` when it is not a pointer, otherwise the walk of the struct it points to; BindPointer is proved equal to it |
| Walk.LeafKind | flag.go:325-353 | only non-struct, non-pointer, supported kinds have a flag kind; an int64 is a duration flag exactly when it is a time.Duration; a slice is supported exactly when its element is string or int |
| Walk.WalkFromStep | flag.go:319-355 | one loop iteration: an error from the field ends the walk with the actions so far; otherwise the walk continues with the next field under the stack the field left |
| Walk.BindFromRestoresParent | flag.go:319-356 | binding a list of fields leaves the stack as it found it, on success and on every error path |
| Walk.BindFieldRestoresParent | flag.go:320-354 | binding one field leaves the stack as it found it |
| Walk.BindDispatchRestoresParent | flag.go:503-523 | the deferred pop of bindStruct/bindStructPtr undoes parseTag's push, also on the nil-pointer and non-struct-pointee errors |
| Walk.ReadFromUnprefixed | flag.go:359-400 | reading from an empty stack leaves it empty and reads every field under its unprefixed name |
| Walk.ReadFieldUnprefixed | flag.go:364-366 | reading one field from an empty stack keeps it empty and uses unprefixed names |
| Walk.ReadDispatchUnprefixed | flag.go:368-398 | the read switch keeps an empty stack empty and uses unprefixed names |
| Walk.WalkFromFlags | flag.go:319-355 | the walk fails exactly when some visited field is unsupported; the flags it handled are, in declaration order, a prefix of the fields' flags, and all of them when it succeeds |
| Walk.WalkFieldFlags | flag.go:320-354 | a skipped field handles nothing; otherwise the field fails exactly when its kind is unsupported, and handles its kind's flags |
| Walk.DispatchFlags | flag.go:325-353 | the switch fails exactly for an unsupported kind (other kinds, bad slices, nil or non-struct pointers) and otherwise handles one flag per supported scalar and all the flags of a nested struct |
| Walk.BindReadSameFlags | flag.go:311-400 | bind and read fail on the same inputs and otherwise handle the same flags at the same fields in the same order |
| Walk.WalkFromPaths | flag.go:319-355 | every handled field lies below the struct's path, at or after field i, and no field is handled twice |
| Walk.WalkFieldPaths | flag.go:320-354 | the flags of one field lie below its path and are distinct |
| Walk.DispatchPaths | flag.go:325-353 | the flags of the switch lie below the field's path and are distinct |
| Walk.SquashedBindIsRead | flag.go:424-426 | with squash on, the bind walk and the read walk are the same |
| Walk.SquashedFieldIsRead | flag.go:424-426 | with squash on, binding and reading one field are the same |
| Walk.SquashedDispatchIsRead | flag.go:424-426 | with squash on, the bind and read switches are the same |
| Walk.NameFieldTag | flag.go:477-499 | an untagged `Name` field is named `name`, and `base.name` under the stack `["base"]` with squash off |
| Walk.BaseFieldTag | flag.go:424-426 | an untagged embedded `Base` struct pushes `base` with squash off |
| Walk.ReadExample | flag.go:359-400 | with squash off, reading `Base{Name}` reads `name` |
| Walk.BindExample | flag.go:311-357 | with squash off, binding `Base{Name}` registers `base.name` |
| Walk.BindReadNamesDiffer | flag.go:364 | with squash off, the same field is bound as `base.name` and read as `name` |
| Walk.SkippedSubtreeIgnored | flag.go:322-324 | a struct field tagged `-` is skipped whole: the walk's precondition holds although a tag below it cannot be read, and bind and read both touch nothing |
| Binder.Registrations | flag.go:319-355 | one registration per handled flag, in order: the registration at position k is the one for the flag at position k |
| Binder.DefaultOf | flag.go:562-663 | the default each bind helper passes to pflag: the text, ToBool, Atoi at the field's width, TrimmedSplit on `,` or AtoiPieces on `,`; BindScalar, BindStringSlice and BindIntSlice are proved to register it |
| Binder.RegistrationsAppend | flag.go:319-355 | the registrations of two runs of handlers are those of the first followed by those of the second |
| Binder.FlagSet.constructor | flag.go:318 | a new flag set holds no registrations |
| Binder.FlagSet.Register | flag.go:636-637 | a *VarP call appends exactly one registration |
| Binder.BindFlags | flag.go:132-140 | with the defaults and the options applied, returns the error of BindTop (`v0 must be pointer` for a non-pointer) and appends exactly the registrations of the flags the walk handles, in order |
| Binder.BindPointer | flag.go:311-357 | the pointer check, then the walk over the pointee's fields: error, registrations and final stack as the walk says |
| Binder.BindFields | flag.go:319-356 | the field loop registers exactly what WalkFrom handles, returns its error and leaves the stack where it says |
| Binder.BindNext | flag.go:320-355 | one iteration keeps the loop invariant: registrations so far plus the rest of the walk make up the whole walk |
| Binder.BindField | flag.go:320-324 | a field getTag skips registers nothing; otherwise parseTag's push, then the switch, as WalkField says |
| Binder.BindKind | flag.go:325-354 | the switch on the kind registers, fails and moves the stack as Dispatch says |
| Binder.BindValue | flag.go:326-343 | scalar and slice kinds register as Dispatch says and leave the stack alone |
| Binder.BindStruct | flag.go:503-506 | a struct field recurses, then pops as Dispatch says |
| Binder.BindStructPtr | flag.go:513-523 | a nil pointer or a pointer to a non-struct fails after the pop; a pointer to a struct recurses, then pops |
| Binder.BindSlice | flag.go:538-548 | a string or int slice registers one flag; any other element type fails with nothing registered |
| Binder.BindScalar | flag.go:562-600 | a string, bool, int, int32, float32 or float64 field appends one registration named by getTag under the current stack |
| Binder.BindInt64 | flag.go:602-612 | an int64 field registers a duration flag when it is a time.Duration and an int64 flag otherwise |
| Binder.BindStringSlice | flag.go:645-648 | a string slice field registers one flag whose default is stringx.Split of the default on `,` |
| Binder.BindIntSlice | flag.go:625-628 | an int slice field registers one flag whose default is AtoSlice of the default on `,` |
| Reader.Stored | flag.go:359-400 | the struct after the read handlers run in order; StoredAppend, StoredUntouched and StoredLastWrite state what it holds |
| Reader.StoredAppend | flag.go:359-400 | running two lists of read handlers one after the other is running their concatenation |
| Reader.StoredUntouched | flag.go:359-400 | a field no handler names keeps its value |
| Reader.StoredLastWrite | flag.go:359-400 | a field holds the value viper gives for the last handler that names it |
| Reader.Target.constructor | flag.go:359-361 | the struct starts with the given field values |
| Reader.Target.Set | flag.go:641-642 | `fValue.Set` changes exactly one field |
| Reader.ReadFlags | flag.go:146-149 | with the defaults and the options applied, returns the read walk's error and sets exactly the fields the walk reads, each to viper's value for its unprefixed name |
| Reader.ReadFields | flag.go:359-400 | the field loop stores exactly what WalkFrom handles in read mode, returns its error and leaves the stack where it says |
| Reader.ReadNext | flag.go:361-399 | one iteration keeps the loop invariant: the values stored so far plus the rest of the walk make up the whole walk |
| Reader.ReadField | flag.go:364-366 | a field getTag skips is left alone; otherwise the switch runs under the unchanged stack |
| Reader.ReadKind | flag.go:368-398 | the switch on the kind stores, fails and moves the stack as Dispatch says |
| Reader.ReadValue | flag.go:369-386 | scalar and slice kinds store as Dispatch says and leave the stack alone |
| Reader.ReadStruct | flag.go:508-511 | a struct field recurses, then the deferred revert runs |
| Reader.ReadStructPtr | flag.go:525-536 | a nil pointer or a pointer to a non-struct fails; a pointer to a struct recurses |
| Reader.ReadSlice | flag.go:550-560 | a string or int slice reads one value; any other element type fails with nothing stored |
| Reader.ReadScalar | flag.go:567-600 | a scalar field is set to viper's value for the name getTag gives |
| Reader.ReadInt64 | flag.go:614-623 | an int64 field reads a duration when it is a time.Duration and an int64 otherwise |
| Reader.ReadsWhatWasRegistered | flag.go:311-400 | with squash on, every registered flag's destination field ends up holding viper's value for that flag's kind and name |

## Left out

- Foreign libraries: cobra, pflag, viper and mapstructure are not part of this model. `BindAndExecute`, `UnmarshalFlags`, `castConfigOptions` and the `with*` decoder options, the PreRun wrapping of `autoMarshalOption`, `WithPreAutoUnMarshal*Option` and `viper.BindPFlags` are left out, because they only forward to those libraries. The flag set is a list of registrations, and viper's getters are the parameter `get`.
- Reflection is replaced by the descriptor datatype. Its panics on unexported fields are not modelled, and tags are an already-parsed map from key to text, so the syntax of Go's struct-tag string is not modelled.
- Cyclic and shared pointers are outside the descriptor. A kind is a finite tree, so a struct graph in which a pointer leads back to a struct on the way to it, or in which two pointers share a struct, is not modelled. On a cycle the source never returns: bindFlags (flag.go:311) calls bindStructPtr (flag.go:513-523), which calls bindFlags again, and readFlags does the same through readStructPtr (flag.go:525-536). Walk.WalkFrom, and the lemmas about it such as Walk.WalkFromFlags and Walk.BindFromRestoresParent, speak only of finite trees.
- Named basic types are outside the descriptor. A field of a named type with a basic kind, such as `type Mode string`, reaches the string (or bool, int, slice) case through `fValue.Kind()` (flag.go:325, 368). Go then panics on the pointer assertion in the bind helper (flag.go:584, 594, 610, 627, 637, 647, 657) or on `fValue.Set` of a value it cannot assign (flag.go:641-642). A `Kind` can say only `String` (bound like a plain string) or `Other` (an error), so that panic is not modelled.
- Strings are sequences of runes, while Go indexes and trims the bytes of UTF-8 text (the `\` check at flag.go:451, TrimSpace and Split). The model agrees with Go on valid UTF-8. Invalid UTF-8 in a tag or a default is not modelled.
- Floating point: `stringx.Atof` and the float conversions are left out. A float default is kept as its text (`FloatText`), and a float32 read is not narrowed.
- `time.ParseDuration` is left out; a duration default is kept as its text (`DurationText`).
- pflag panics when the same flag name is registered twice; this is not modelled, and duplicate registrations simply both appear in the list.
- Go's `int` is taken as 64 bits wide.
- lib/builtin/builtin.go holds only type constraints; the example programs are used only as example data.
- GoStrings.ToLower: lower-cases ASCII letters only. Go's Unicode case mapping of other letters is not modelled.
- Tag.GetTag: requires TagParses. getTag indexes out of range on an empty label token, or when the last label token ends in `\`, and those panics are preconditions here rather than modelled.
- Tag.ParseTag: requires TagParses, as GetTag does.
- Binder.BindFlags: requires that a pointer points to a non-nil struct (reflection panics otherwise), and that every tag the walk reads parses. Tags below a field getTag skips are not required to parse. This is still stronger than needed, because tags after the first error are never read.
- Reader.ReadFlags: requires a pointer to a struct, since readFlags has no pointer check and reflection panics without one. It also requires every tag the walk reads to parse, as BindFlags does.
- Stringx.Atoi: for malformed text whose leading digits overflow 64 bits it states only the range of the result (one such input is pinned down by GoStrconv.ParseIntOverflowBeforeSyntaxError).
- Stringx.TrimmedSplit: its own ensures give only the count and the trimming of each element. What each element holds is stated by TrimmedSplitElement (piece k with its white-space ends removed). The round trip is stated by TrimmedSplitJoin, only for pieces that are already trimmed.
