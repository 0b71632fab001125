/** How the pretty-printer recognises a Bismut runtime type from GDB's name for it:
    the C tag to Bismut name table, the removal of a leading `struct `, and the three
    anchored patterns for `Str`, `List_<tag>` and `Dict_<key>_<value>`, tried in that order. */
module TypeNames {
  import opened Wrappers

  /** A GDB type as the lookup sees it. A pointer type never carries a tag, so only its
      printed text can stand for its name; any other type may carry a tag ("" when absent). */
  datatype CType =
    | PointerType(target: CType, text: string)
    | OtherType(tag: string, text: string)

  // ---------------------------------------------------------------------------
  // Tag to Bismut name
  // ---------------------------------------------------------------------------

  /** The upper-case tags the C backend uses for Bismut's primitive types. */
  const PrimitiveTags: seq<string> :=
    ["I8", "I16", "I32", "I64", "U8", "U16", "U32", "U64", "F32", "F64", "BOOL", "STR"]

  /** The translation table of the printer module. */
  const TagTable: map<string, string> := map[
    "I8" := "i8", "I16" := "i16", "I32" := "i32", "I64" := "i64",
    "U8" := "u8", "U16" := "u16", "U32" := "u32", "U64" := "u64",
    "F32" := "f32", "F64" := "f64", "BOOL" := "bool", "STR" := "str"]

  function LowerChar(c: char): char
  {
    if 'A' <= c <= 'Z' then (c as int + 32) as char else c
  }

  /** ASCII lower-casing, the independent description of what the table does. */
  function Lower(s: string): (r: string)
    ensures |r| == |s|
  {
    if s == [] then [] else [LowerChar(s[0])] + Lower(s[1..])
  }

  /** A C tag to the Bismut name shown in summaries: a primitive tag to its lower-case
      spelling, any other tag (a user struct such as `Person`) unchanged. */
  function TagToName(tag: string): (r: string)
    ensures tag in PrimitiveTags ==> r == Lower(tag)
    ensures tag !in PrimitiveTags ==> r == tag
  {
    TagTableKeys();
    TagTableIsLowerCase();
    if tag in TagTable then TagTable[tag] else tag
  }

  /** The table's keys are the primitive tags. */
  lemma TagTableKeys()
    ensures forall t :: t in TagTable <==> t in PrimitiveTags
  {
  }

  /** Each primitive tag maps to its lower-case spelling. */
  lemma TagTableIsLowerCase()
    ensures forall t :: t in TagTable ==> TagTable[t] == Lower(t)
  {
  }

  /** The table changes a tag exactly when the tag is one of the twelve primitive ones. */
  lemma TagToNameChangesOnlyPrimitives(tag: string)
    ensures TagToName(tag) != tag <==> tag in PrimitiveTags
  {
  }

  /** Translating twice is translating once: no Bismut name is itself a primitive tag. */
  lemma TagToNameIdempotent(tag: string)
    ensures TagToName(TagToName(tag)) == TagToName(tag)
  {
    if tag in PrimitiveTags {
      var r := Lower(tag);
      assert 'a' <= r[0] <= 'z';
      assert r !in PrimitiveTags;
    }
  }

  // ---------------------------------------------------------------------------
  // Base type name
  // ---------------------------------------------------------------------------

  const StructPrefix: string := "struct "

  /** Removes one leading `struct ` (seven characters) and nothing else. */
  function StripStruct(name: string): (r: string)
    ensures StructPrefix <= name ==> name == StructPrefix + r
    ensures !(StructPrefix <= name) ==> r == name
  {
    if StructPrefix <= name then name[7..] else name
  }

  /** Only one prefix is removed, even when the rest starts with `struct ` again. */
  lemma StripStructOnce(rest: string)
    ensures StripStruct(StructPrefix + rest) == rest
  {
  }

  /** `t.tag or str(t)`: the tag when there is a non-empty one, otherwise the printed type. */
  function Spelling(t: CType): (r: string)
    ensures t.OtherType? && t.tag != "" ==> r == t.tag
    ensures t.PointerType? || t.tag == "" ==> r == t.text
  {
    if t.OtherType? && t.tag != "" then t.tag else t.text
  }

  /** The struct name of a value's type, looking through one level of pointer. */
  function BaseTypeName(t: CType): (r: string)
    ensures t.PointerType? ==> r == StripStruct(Spelling(t.target))
    ensures t.OtherType? && t.tag != "" ==> r == StripStruct(t.tag)
    ensures t.OtherType? && t.tag == "" ==> r == StripStruct(t.text)
  {
    var u := if t.PointerType? then t.target else t;
    StripStruct(Spelling(u))
  }

  /** A pointer to a non-pointer type has the name of the type it points to, so a pointer
      to a runtime struct is printed by the printer of that struct. */
  lemma BaseTypeNameThroughPointer(target: CType, text: string)
    requires target.OtherType?
    ensures BaseTypeName(PointerType(target, text)) == BaseTypeName(target)
  {
  }

  // ---------------------------------------------------------------------------
  // The three patterns
  // ---------------------------------------------------------------------------

  const StrName: string := "__lang_rt_Str"
  const ListPrefix: string := "__lang_rt_List_"
  const DictPrefix: string := "__lang_rt_Dict_"

  /** `\w`, restricted to ASCII. */
  predicate IsWordChar(c: char)
  {
    'a' <= c <= 'z' || 'A' <= c <= 'Z' || '0' <= c <= '9' || c == '_'
  }

  /** `\w+` matches the whole of s. */
  predicate IsWord(s: string)
  {
    |s| > 0 && forall i :: 0 <= i < |s| ==> IsWordChar(s[i])
  }

  /** The part of a name that a pattern `^...$` must match in full: `$` also matches just
      before a final newline, and no pattern here consumes a newline itself. */
  function Anchored(name: string): (s: string)
    ensures |name| > 0 && name[|name| - 1] == '\n' ==> name == s + "\n"
    ensures (|name| == 0 || name[|name| - 1] != '\n') ==> s == name
  {
    if |name| > 0 && name[|name| - 1] == '\n' then name[..|name| - 1] else name
  }

  /** The group of `^__lang_rt_List_(\w+)$`, when s matches it. */
  function ListTag(s: string): (r: Option<string>)
    ensures r.Some? <==> ListPrefix <= s && IsWord(s[|ListPrefix|..])
    ensures r.Some? ==> s == ListPrefix + r.value
  {
    if ListPrefix <= s && IsWord(s[|ListPrefix|..]) then Some(s[|ListPrefix|..]) else None
  }

  /** The first split point at or after i: an underscore with something after it. */
  function SplitFrom(s: string, i: nat): (r: Option<(string, string)>)
    requires i >= 1
    ensures r.Some? ==> |r.value.0| >= i && s == r.value.0 + "_" + r.value.1 && r.value.1 != []
    ensures r.Some? ==> forall j :: i <= j < |r.value.0| ==> s[j] != '_'
    ensures r.None? ==> forall j :: i <= j < |s| - 1 ==> s[j] != '_'
    decreases |s| - i
  {
    if i + 1 >= |s| then None
    else if s[i] == '_' then Some((s[..i], s[i + 1..]))
    else SplitFrom(s, i + 1)
  }

  /** The two groups of `(\w+?)_(\w+)$` on s. The lazy key takes the shortest non-empty
      prefix that is followed by `_` and a non-empty rest. */
  function DictSplit(s: string): (r: Option<(string, string)>)
    ensures r.Some? ==> IsWord(s) && s == r.value.0 + "_" + r.value.1
    ensures r.Some? ==> |r.value.0| >= 1 && r.value.1 != []
  {
    if IsWord(s) then SplitFrom(s, 1) else None
  }

  /** The groups of `^__lang_rt_Dict_(\w+?)_(\w+)$`, when s matches it. */
  function DictTags(s: string): (r: Option<(string, string)>)
    ensures r.Some? ==> s == DictPrefix + r.value.0 + "_" + r.value.1
  {
    if DictPrefix <= s then
      assert s == DictPrefix + s[|DictPrefix|..];
      DictSplit(s[|DictPrefix|..])
    else None
  }

  /** The printer `_lookup_printer` chooses for a type name. */
  datatype Printer =
    | StrP
    | ListP(elem: string)
    | DictP(key: string, val: string)
    | NoPrinter

  /** Str is tried first, then List, then Dict; the tags found are translated by TagToName. */
  function Classify(name: string): (r: Printer)
    ensures r == StrP <==> Anchored(name) == StrName
    ensures r.ListP? ==> ListPrefix <= Anchored(name)
    ensures r.DictP? ==> DictPrefix <= Anchored(name)
  {
    var s := Anchored(name);
    if s == StrName then StrP
    else match ListTag(s)
      case Some(t) => ListP(TagToName(t))
      case None =>
        match DictTags(s)
        case Some(kv) => DictP(TagToName(kv.0), TagToName(kv.1))
        case None => NoPrinter
  }

  // ---------------------------------------------------------------------------
  // Properties of the classifier
  // ---------------------------------------------------------------------------

  /** The two lazy groups, described without the search: s is key, `_`, rest, both
      words, and the key has no underscore after its first character. */
  lemma {:induction false} DictSplitCharacterized(s: string, k: string, v: string)
    ensures DictSplit(s) == Some((k, v)) <==>
      s == k + "_" + v && IsWord(k) && IsWord(v) && forall j :: 1 <= j < |k| ==> k[j] != '_'
  {
    if s == k + "_" + v && IsWord(k) && IsWord(v) && forall j :: 1 <= j < |k| ==> k[j] != '_' {
      assert s[|k|] == '_';
      forall i | 0 <= i < |s| ensures IsWordChar(s[i]) {
        if i < |k| { assert s[i] == k[i]; }
        else if i > |k| { assert s[i] == v[i - |k| - 1]; }
      }
      SplitFromFinds(s, 1, k, v);
    }
    if DictSplit(s) == Some((k, v)) {
      assert IsWord(s);
      forall i | 0 <= i < |k| ensures IsWordChar(k[i]) { assert k[i] == s[i]; }
      forall i | 0 <= i < |v| ensures IsWordChar(v[i]) { assert v[i] == s[|k| + 1 + i]; }
      forall j | 1 <= j < |k| ensures k[j] != '_' { assert k[j] == s[j]; }
    }
  }

  /** When s is k, `_`, v with no underscore in k from index i on, the search from i finds k. */
  lemma {:induction false} SplitFromFinds(s: string, i: nat, k: string, v: string)
    requires 1 <= i <= |k|
    requires s == k + "_" + v && v != []
    requires forall j :: i <= j < |k| ==> k[j] != '_'
    ensures SplitFrom(s, i) == Some((k, v))
    decreases |k| - i
  {
    if i == |k| {
      assert s[i] == '_';
      assert s[..i] == k && s[i + 1..] == v;
    } else {
      assert s[i] == k[i];
      SplitFromFinds(s, i + 1, k, v);
    }
  }

  /** The name `__lang_rt_Str`, and only it (with or without a final newline), gets the
      Str printer. */
  lemma ClassifyStr(name: string)
    ensures Classify(name) == StrP <==> name == StrName || name == StrName + "\n"
  {
  }

  /** `$` lets one final newline through: adding it to a name that does not already end in
      one never changes the printer chosen. */
  lemma ClassifyFinalNewline(name: string)
    requires |name| == 0 || name[|name| - 1] != '\n'
    ensures Classify(name + "\n") == Classify(name)
  {
  }

  /** List round trip: a list struct for element tag t is printed as a list of TagToName(t),
      also when the name carries one final newline. */
  lemma ClassifyList(t: string)
    requires IsWord(t)
    ensures Classify(ListPrefix + t) == ListP(TagToName(t))
    ensures Classify(ListPrefix + t + "\n") == ListP(TagToName(t))
  {
  }

  /** Every List choice comes from a name of that shape. */
  lemma ListSource(name: string) returns (t: string)
    requires Classify(name).ListP?
    ensures IsWord(t) && Anchored(name) == ListPrefix + t
    ensures Classify(name).elem == TagToName(t)
  {
    t := ListTag(Anchored(name)).value;
  }

  /** Dict round trip: for a key tag without underscores after its first character and
      any value tag, the two tags come back translated, also with one final newline. */
  lemma ClassifyDict(k: string, v: string)
    requires IsWord(k) && IsWord(v)
    requires forall j :: 1 <= j < |k| ==> k[j] != '_'
    ensures Classify(DictPrefix + k + "_" + v) == DictP(TagToName(k), TagToName(v))
    ensures Classify(DictPrefix + k + "_" + v + "\n") == DictP(TagToName(k), TagToName(v))
  {
    var name := DictPrefix + k + "_" + v;
    var rest := k + "_" + v;
    assert name == DictPrefix + rest;
    assert name[|name| - 1] == v[|v| - 1];
    assert Anchored(name) == name;
    assert name != StrName by { assert name[10] != StrName[10]; }
    assert !(ListPrefix <= name) by { assert name[10] != ListPrefix[10]; }
    assert name[|DictPrefix|..] == rest;
    DictSplitCharacterized(rest, k, v);
    ClassifyFinalNewline(name);
  }

  /** Every Dict choice comes from a name of that shape, with the shortest admissible key. */
  lemma DictSource(name: string) returns (k: string, v: string)
    requires Classify(name).DictP?
    ensures Anchored(name) == DictPrefix + k + "_" + v
    ensures IsWord(k) && IsWord(v) && forall j :: 1 <= j < |k| ==> k[j] != '_'
    ensures Classify(name) == DictP(TagToName(k), TagToName(v))
  {
    var s := Anchored(name);
    assert s != StrName && ListTag(s).None?;
    var kv := DictTags(s).value;
    assert Classify(name) == DictP(TagToName(kv.0), TagToName(kv.1));
    k, v := kv.0, kv.1;
    var rest := s[|DictPrefix|..];
    assert DictSplit(rest) == Some((k, v));
    DictSplitCharacterized(rest, k, v);
    assert s == DictPrefix + rest;
    assert DictPrefix + k + "_" + v == DictPrefix + (k + "_" + v);
  }

  /** The three patterns match disjoint sets of names, so their order never decides the
      choice: at most one printer type fits any name. */
  lemma PatternsDisjoint(s: string)
    ensures !(s == StrName && ListTag(s).Some?)
    ensures !(s == StrName && DictTags(s).Some?)
    ensures !(ListTag(s).Some? && DictTags(s).Some?)
  {
    assert ListPrefix[10] != DictPrefix[10];
    assert ListPrefix <= s ==> s[10] == ListPrefix[10];
  }
}
