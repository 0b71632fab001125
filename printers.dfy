/** The three GDB pretty-printers of the Bismut runtime (`Str`, `List_*`, `Dict_*`) over
    the abstract layout of module Runtime, and the lookup that picks one for a value. */
module Printers {
  import opened Wrappers
  import opened Decimal
  import opened TypeNames
  import opened Runtime

  /** One element of what `children` yields: a label and the value shown under it. */
  type Labeled = (string, Child)

  /** A list shows at most this many elements. */
  const ListChildLimit: int := 200

  /** `__LANG_RT_SLOT_FULL`: the state of a dictionary entry that holds a pair. */
  const SlotFull: int := 1

  // ---------------------------------------------------------------------------
  // Labels and summaries
  // ---------------------------------------------------------------------------

  /** `'[{}]'.format(i)`: the index in decimal between brackets. */
  function IndexLabel(i: nat): string
  {
    "[" + NatToString(i) + "]"
  }

  /** An index label is the index in decimal between brackets: the text between them reads
      back as the index. */
  lemma IndexLabelDenotes(i: nat)
    ensures var r := IndexLabel(i);
      |r| >= 3 && r[0] == '[' && r[|r| - 1] == ']' &&
      Denotes(r[1..|r| - 1], i) && Canonical(r[1..|r| - 1])
  {
    var r := IndexLabel(i);
    assert r[1..|r| - 1] == NatToString(i);
    ValueOfNatToString(i);
  }

  /** `'[{}].key'.format(i)`: the index label followed by `.key`. */
  function KeyLabel(i: nat): (r: string)
    ensures r == IndexLabel(i) + ".key"
  {
    "[" + NatToString(i) + "].key"
  }

  /** `'[{}].value'.format(i)`: the index label followed by `.value`. */
  function ValueLabel(i: nat): (r: string)
    ensures r == IndexLabel(i) + ".value"
  {
    "[" + NatToString(i) + "].value"
  }

  /** `List[T](n)`: the element name in brackets, then the length in decimal in parentheses. */
  function ListSummary(elem: string, n: int): (r: string)
    ensures |r| > |elem| + 7 && r[..|elem| + 7] == "List[" + elem + "]("
    ensures r[|r| - 1] == ')' && Denotes(r[|elem| + 7..|r| - 1], n)
    ensures Canonical(r[|elem| + 7..|r| - 1])
  {
    IntToStringRoundTrip(n);
    var p := "List[" + elem + "](";
    var r := p + IntToString(n) + ")";
    assert r[..|p|] == p && r[|p|..|r| - 1] == IntToString(n);
    r
  }

  /** `Dict[K, V](n)`: both names in brackets, then the length in decimal in parentheses. */
  function DictSummary(key: string, val: string, n: int): (r: string)
    ensures |r| > |key| + |val| + 9 && r[..|key| + |val| + 9] == "Dict[" + key + ", " + val + "]("
    ensures r[|r| - 1] == ')' && Denotes(r[|key| + |val| + 9..|r| - 1], n)
    ensures Canonical(r[|key| + |val| + 9..|r| - 1])
  {
    IntToStringRoundTrip(n);
    var p := "Dict[" + key + ", " + val + "](";
    var r := p + IntToString(n) + ")";
    assert r[..|p|] == p && r[|p|..|r| - 1] == IntToString(n);
    r
  }

  /** A string `p + x + q` gives back x once p and q are known. */
  lemma CancelAround(p: string, x: string, y: string, q: string)
    requires p + x + q == p + y + q
    ensures x == y
  {
    var s := p + x + q;
    assert x == s[|p|..|s| - |q|];
    assert y == (p + y + q)[|p|..|s| - |q|];
  }

  /** Labels of different indices differ, so no two children share a label. */
  lemma LabelsDistinct(i: nat, j: nat)
    ensures IndexLabel(i) == IndexLabel(j) ==> i == j
    ensures KeyLabel(i) == KeyLabel(j) ==> i == j
    ensures ValueLabel(i) == ValueLabel(j) ==> i == j
    ensures KeyLabel(i) != ValueLabel(j)
  {
    NatToStringInjective(i, j);
    if IndexLabel(i) == IndexLabel(j) {
      CancelAround("[", NatToString(i), NatToString(j), "]");
    }
    if KeyLabel(i) == KeyLabel(j) {
      CancelAround("[", NatToString(i), NatToString(j), "].key");
    }
    if ValueLabel(i) == ValueLabel(j) {
      CancelAround("[", NatToString(i), NatToString(j), "].value");
    }
    // The text after the digits is `].key` in one and `].value` in the other.
    var k, w := KeyLabel(i), ValueLabel(j);
    assert k[|k| - 1] == 'y' && w[|w| - 1] == 'e';
  }

  /** The summary of a list gives back its length and is never a fallback text. */
  lemma ListSummaryFaithful(elem: string, n: int, m: int)
    ensures ListSummary(elem, n) == ListSummary(elem, m) ==> n == m
    ensures ListSummary(elem, n) != "None" && ListSummary(elem, n) != "<list?>"
  {
  }

  /** The summary of a dictionary gives back its length and is never a fallback text. */
  lemma DictSummaryFaithful(key: string, val: string, n: int, m: int)
    ensures DictSummary(key, val, n) == DictSummary(key, val, m) ==> n == m
    ensures DictSummary(key, val, n) != "None" && DictSummary(key, val, n) != "<dict?>"
  {
  }

  // ---------------------------------------------------------------------------
  // Str
  // ---------------------------------------------------------------------------

  /** What `BismutStrPrinter.to_string` returns; `decode` is GDB's UTF-8 decoding with
      replacement characters, which this model does not look into. */
  function StrText(v: Value, decode: seq<byte> -> string): (s: string)
    ensures Dereference(v).NullPointer? ==> s == "None"
    ensures Dereference(v).Unreadable? ==> s == "<str?>"
    ensures Dereference(v).Object? && (FieldOf(v, "len").Fault? || FieldOf(v, "data").Fault?)
      ==> s == "<str?>"
    ensures FieldOf(v, "len").Ok? && FieldOf(v, "data") == Ok(0) ==> s == ""
    ensures FieldOf(v, "len").Ok? && FieldOf(v, "data").Ok? && FieldOf(v, "data").value != 0 ==>
      var n := FieldOf(v, "len").value;
      s == if 0 <= n <= |v.target.text| then decode(v.target.text[..n]) else "<str?>"
  {
    if Dereference(v).NullPointer? then "None"
    else match (FieldOf(v, "len"), FieldOf(v, "data"))
      case (Ok(n), Ok(data)) =>
        if data == 0 then ""
        else (match ReadBytes(v.target.text, n)
          case Ok(bytes) => decode(bytes)
          case Fault => "<str?>")
      case _ => "<str?>"
  }

  class StrPrinter {
    const val: Value
    /** Set by ToString on a null pointer; DisplayHint reads it. */
    var isNull: bool

    constructor (val: Value)
      ensures this.val == val && !isNull
    {
      this.val := val;
      isNull := false;
    }

    method ToString(decode: seq<byte> -> string) returns (s: string)
      modifies this
      ensures s == StrText(val, decode)
      ensures isNull == (old(isNull) || Dereference(val).NullPointer?)
    {
      if val.ty.PointerType? {
        if val.bits.Fault? {
          return "<str?>";
        }
        if val.bits.value == 0 {
          isNull := true;
          return "None";
        }
      }
      var len := Field(val.target.fields, "len");
      if len.Fault? {
        return "<str?>";
      }
      var data := Field(val.target.fields, "data");
      if data.Fault? {
        return "<str?>";
      }
      if data.value == 0 {
        return "";
      }
      var bytes := ReadBytes(val.target.text, len.value);
      if bytes.Fault? {
        return "<str?>";
      }
      s := decode(bytes.value);
    }

    /** No hint once a null pointer was seen, so GDB shows `None` bare; `"string"` otherwise. */
    function DisplayHint(): (hint: Option<string>)
      reads this
      ensures hint.None? <==> isNull
      ensures hint.Some? ==> hint.value == "string"
    {
      if isNull then None else Some("string")
    }
  }

  /** GDB's use of a fresh Str printer: the summary first, then the hint. The hint is
      absent exactly for a null pointer, whose summary is `None`. */
  method ShowStr(p: StrPrinter, decode: seq<byte> -> string) returns (s: string, hint: Option<string>)
    requires !p.isNull
    modifies p
    ensures s == StrText(p.val, decode)
    ensures hint.None? <==> Dereference(p.val).NullPointer?
    ensures hint.None? ==> s == "None"
    ensures hint.Some? ==> hint.value == "string"
  {
    s := p.ToString(decode);
    hint := p.DisplayHint();
  }

  /** The hint depends on the order of the calls: asked before the summary, a printer
      over a null pointer still answers `"string"`. */
  method HintBeforeSummary(p: StrPrinter, decode: seq<byte> -> string) returns (hint: Option<string>, s: string)
    requires !p.isNull
    modifies p
    ensures hint == Some("string")
    ensures s == StrText(p.val, decode)
    ensures Dereference(p.val).NullPointer? ==> s == "None" && p.isNull
  {
    hint := p.DisplayHint();
    s := p.ToString(decode);
  }

  // ---------------------------------------------------------------------------
  // List
  // ---------------------------------------------------------------------------

  /** The count of elements a list with stored length n shows: `min(n, 200)`, none when
      n is not positive. */
  function ListChildCount(n: int): (c: nat)
    ensures c <= ListChildLimit && c <= (if n < 0 then 0 else n)
    ensures c == ListChildLimit || c == n || (n <= 0 && c == 0)
  {
    if n <= 0 then 0 else if n < ListChildLimit then n else ListChildLimit
  }

  /** `(len, data)` of a list whose elements can be enumerated: the pointer is not null,
      both fields read, and `data` is not NULL. */
  function ListData(v: Value): (r: Option<(int, int)>)
    ensures r.Some? <==> FieldOf(v, "len").Ok? && FieldOf(v, "data").Ok? && FieldOf(v, "data").value != 0
    ensures r.Some? ==> r.value == (FieldOf(v, "len").value, FieldOf(v, "data").value)
  {
    match (FieldOf(v, "len"), FieldOf(v, "data"))
    case (Ok(n), Ok(data)) => if data == 0 then None else Some((n, data))
    case _ => None
  }

  class ListPrinter {
    const val: Value
    const elemTypeName: string

    constructor (val: Value, elemTypeName: string)
      ensures this.val == val && this.elemTypeName == elemTypeName
    {
      this.val := val;
      this.elemTypeName := elemTypeName;
    }

    /** `None` for a null pointer, `List[T](len)` when `len` reads, `<list?>` otherwise.
        The `data` field plays no part. */
    function ToString(): (s: string)
      ensures Dereference(val).NullPointer? ==> s == "None"
      ensures !Dereference(val).NullPointer? && FieldOf(val, "len").Fault? ==> s == "<list?>"
      ensures FieldOf(val, "len").Ok? ==> s == ListSummary(elemTypeName, FieldOf(val, "len").value)
    {
      match Dereference(val)
      case NullPointer => "None"
      case Unreadable => "<list?>"
      case Object(f) =>
        match Field(f, "len")
        case Ok(n) => ListSummary(elemTypeName, n)
        case Fault => "<list?>"
    }

    /** Elements `[0]`, `[1]`, ... in order, element i at `data[i]`, as many as
        ListChildCount allows; nothing when the list cannot be enumerated. */
    method Children() returns (kids: seq<Labeled>)
      ensures ListData(val).None? ==> kids == []
      ensures ListData(val).Some? ==> |kids| == ListChildCount(ListData(val).value.0)
      ensures ListData(val).Some? ==> forall i :: 0 <= i < |kids| ==>
        kids[i] == (IndexLabel(i), Element(ListData(val).value.1, i))
    {
      kids := [];
      if val.ty.PointerType? {
        if val.bits.Fault? || val.bits.value == 0 {
          return;
        }
      }
      var len := Field(val.target.fields, "len");
      if len.Fault? {
        return;
      }
      var data := Field(val.target.fields, "data");
      if data.Fault? || data.value == 0 {
        return;
      }
      var n := ListChildCount(len.value);
      var i := 0;
      while i < n
        invariant 0 <= i <= n
        invariant |kids| == i
        invariant forall k :: 0 <= k < i ==> kids[k] == (IndexLabel(k), Element(data.value, k))
      {
        kids := kids + [(IndexLabel(i), Element(data.value, i))];
        i := i + 1;
      }
    }

    function DisplayHint(): (hint: string)
      ensures hint == "array"
    {
      "array"
    }
  }

  // ---------------------------------------------------------------------------
  // Dict
  // ---------------------------------------------------------------------------

  /** The entry states read from index i on, in order, at most up to `cap`, stopping at the
      first entry whose state cannot be read. */
  function ScanStates(slots: seq<Fields>, cap: int, i: nat): (r: seq<int>)
    ensures |r| <= (if cap > i then cap - i else 0)
    decreases if cap > i then cap - i else 0
  {
    if i >= cap then []
    else match SlotState(slots, i)
      case Fault => []
      case Ok(st) => [st] + ScanStates(slots, cap, i + 1)
  }

  /** The scan is the longest run of readable states from entry i on, and stops at `cap`:
      state j of the scan is that of entry i + j, and when the scan ends before `cap` the
      next entry's state cannot be read. */
  lemma {:induction false} ScanStatesExact(slots: seq<Fields>, cap: int, i: nat)
    ensures var r := ScanStates(slots, cap, i);
      |r| <= (if cap > i then cap - i else 0) &&
      (forall j :: 0 <= j < |r| ==> SlotState(slots, i + j) == Ok(r[j])) &&
      (i + |r| < cap ==> SlotState(slots, i + |r|).Fault?)
    decreases if cap > i then cap - i else 0
  {
    if i < cap && SlotState(slots, i).Ok? {
      ScanStatesExact(slots, cap, i + 1);
      var r := ScanStates(slots, cap, i);
      var rest := ScanStates(slots, cap, i + 1);
      assert forall j :: 1 <= j < |r| ==> r[j] == rest[j - 1] && i + j == (i + 1) + (j - 1);
    }
  }

  /** The indices of the full entries among the states, in increasing order. */
  function FullSlots(sts: seq<int>): (r: seq<nat>)
    ensures |r| <= |sts|
  {
    if sts == [] then []
    else FullSlots(sts[..|sts| - 1]) + (if sts[|sts| - 1] == SlotFull then [|sts| - 1] else [])
  }

  lemma FullSlotsSnoc(sts: seq<int>, st: int)
    ensures FullSlots(sts + [st]) == FullSlots(sts) + (if st == SlotFull then [|sts|] else [])
  {
    assert (sts + [st])[..|sts|] == sts;
  }

  /** Every index listed is that of a full entry, and the indices increase strictly. */
  lemma {:induction false} FullSlotsSound(sts: seq<int>)
    ensures forall j :: 0 <= j < |FullSlots(sts)| ==>
      FullSlots(sts)[j] < |sts| && sts[FullSlots(sts)[j]] == SlotFull
    ensures forall j, k :: 0 <= j < k < |FullSlots(sts)| ==> FullSlots(sts)[j] < FullSlots(sts)[k]
  {
    if sts != [] {
      var init := sts[..|sts| - 1];
      FullSlotsSound(init);
      var r := FullSlots(sts);
      var p := FullSlots(init);
      assert forall j :: 0 <= j < |p| ==> r[j] == p[j] && init[p[j]] == sts[p[j]];
    }
  }

  /** Every full entry is listed: empty and deleted entries neither appear nor shift the rest. */
  lemma {:induction false} FullSlotsComplete(sts: seq<int>, i: nat)
    requires i < |sts| && sts[i] == SlotFull
    ensures i in FullSlots(sts)
  {
    var n := |sts| - 1;
    if i < n {
      var init := sts[..n];
      assert init[i] == sts[i];
      FullSlotsComplete(init, i);
    }
  }

  /** There are as many full entries as states equal to SlotFull. */
  lemma {:induction false} FullSlotsCount(sts: seq<int>)
    ensures |FullSlots(sts)| == multiset(sts)[SlotFull]
  {
    if sts != [] {
      var init := sts[..|sts| - 1];
      FullSlotsCount(init);
      var last := sts[|sts| - 1];
      assert sts == init + [last];
      assert multiset(sts) == multiset(init) + multiset{last};
    }
  }

  /** The children for the given full slots, in order. */
  function PairChildren(e: int, full: seq<nat>): (r: seq<Labeled>)
    ensures |r| == 2 * |full|
  {
    if full == [] then []
    else
      var n := |full| - 1;
      PairChildren(e, full[..n]) + [(KeyLabel(n), SlotKey(e, full[n])), (ValueLabel(n), SlotValue(e, full[n]))]
  }

  lemma PairChildrenSnoc(e: int, full: seq<nat>, slot: nat)
    ensures PairChildren(e, full + [slot]) ==
      PairChildren(e, full) + [(KeyLabel(|full|), SlotKey(e, slot)), (ValueLabel(|full|), SlotValue(e, slot))]
  {
  }

  /** The j-th full slot gives child 2j, `[j].key`, and child 2j + 1, `[j].value`, both
      located at that slot's own index; there are no other children. */
  lemma {:induction false} PairChildrenAt(e: int, full: seq<nat>)
    ensures |PairChildren(e, full)| == 2 * |full|
    ensures forall j :: 0 <= j < |full| ==>
      PairChildren(e, full)[2 * j] == (KeyLabel(j), SlotKey(e, full[j])) &&
      PairChildren(e, full)[2 * j + 1] == (ValueLabel(j), SlotValue(e, full[j]))
  {
    if full != [] {
      var n := |full| - 1;
      var init := full[..n];
      PairChildrenAt(e, init);
      assert forall j :: 0 <= j < n ==> init[j] == full[j];
    }
  }

  /** `(cap, e)` of a dictionary whose entries can be enumerated: the pointer is not null,
      both fields read, and `e` is not NULL. */
  function DictData(v: Value): (r: Option<(int, int)>)
    ensures r.Some? <==> FieldOf(v, "cap").Ok? && FieldOf(v, "e").Ok? && FieldOf(v, "e").value != 0
    ensures r.Some? ==> r.value == (FieldOf(v, "cap").value, FieldOf(v, "e").value)
  {
    match (FieldOf(v, "cap"), FieldOf(v, "e"))
    case (Ok(cap), Ok(e)) => if e == 0 then None else Some((cap, e))
    case _ => None
  }

  /** The loop of `BismutDictPrinter.children` over entries 0 .. cap - 1 at address e:
      `idx` counts the full entries seen so far. */
  method FullEntryChildren(slots: seq<Fields>, cap: int, e: int) returns (kids: seq<Labeled>)
    ensures kids == PairChildren(e, FullSlots(ScanStates(slots, cap, 0)))
  {
    kids := [];
    ghost var all := ScanStates(slots, cap, 0);
    ghost var seen: seq<int> := [];
    var idx := 0;
    var i := 0;
    while i < cap
      invariant |seen| == i
      invariant all == seen + ScanStates(slots, cap, i)
      invariant idx == |FullSlots(seen)|
      invariant kids == PairChildren(e, FullSlots(seen))
      decreases cap - i
    {
      var st := SlotState(slots, i);
      if st.Fault? {
        assert ScanStates(slots, cap, i) == [] && seen + [] == seen;
        return;
      }
      ghost var rest := ScanStates(slots, cap, i + 1);
      assert all == (seen + [st.value]) + rest;
      ghost var done := FullSlots(seen);
      FullSlotsSnoc(seen, st.value);
      if st.value == SlotFull {
        PairChildrenSnoc(e, done, i);
        kids := kids + [(KeyLabel(idx), SlotKey(e, i)), (ValueLabel(idx), SlotValue(e, i))];
        idx := idx + 1;
      } else {
        assert done + [] == done;
      }
      seen := seen + [st.value];
      i := i + 1;
    }
    assert ScanStates(slots, cap, i) == [] && seen + [] == seen;
  }

  class DictPrinter {
    const val: Value
    const keyTypeName: string
    const valTypeName: string

    constructor (val: Value, keyTypeName: string, valTypeName: string)
      ensures this.val == val && this.keyTypeName == keyTypeName && this.valTypeName == valTypeName
    {
      this.val := val;
      this.keyTypeName := keyTypeName;
      this.valTypeName := valTypeName;
    }

    /** `None` for a null pointer, `Dict[K, V](len)` when `len` reads, `<dict?>` otherwise.
        The count shown is `len`, not `cap`. */
    function ToString(): (s: string)
      ensures Dereference(val).NullPointer? ==> s == "None"
      ensures !Dereference(val).NullPointer? && FieldOf(val, "len").Fault? ==> s == "<dict?>"
      ensures FieldOf(val, "len").Ok? ==>
        s == DictSummary(keyTypeName, valTypeName, FieldOf(val, "len").value)
    {
      match Dereference(val)
      case NullPointer => "None"
      case Unreadable => "<dict?>"
      case Object(f) =>
        match Field(f, "len")
        case Ok(n) => DictSummary(keyTypeName, valTypeName, n)
        case Fault => "<dict?>"
    }

    /** For the j-th full entry among those scanned, `[j].key` and then `[j].value`;
        empty and deleted entries yield nothing and do not advance j. A state that cannot
        be read ends the enumeration, keeping what was already yielded. */
    method Children() returns (kids: seq<Labeled>)
      ensures DictData(val).None? ==> kids == []
      ensures DictData(val).Some? ==> var (cap, e) := DictData(val).value;
        kids == PairChildren(e, FullSlots(ScanStates(val.target.slots, cap, 0)))
    {
      kids := [];
      if val.ty.PointerType? {
        if val.bits.Fault? || val.bits.value == 0 {
          return;
        }
      }
      var capField := Field(val.target.fields, "cap");
      if capField.Fault? {
        return;
      }
      var entries := Field(val.target.fields, "e");
      if entries.Fault? || entries.value == 0 {
        return;
      }
      kids := FullEntryChildren(val.target.slots, capField.value, entries.value);
    }

    function DisplayHint(): (hint: string)
      ensures hint == "map"
    {
      "map"
    }
  }

  // ---------------------------------------------------------------------------
  // Lookup
  // ---------------------------------------------------------------------------

  /** What `_lookup_printer` hands back to GDB. */
  datatype Chosen =
    | StrChosen(str: StrPrinter)
    | ListChosen(list: ListPrinter)
    | DictChosen(dict: DictPrinter)
    | NoneChosen

  /** A new printer for the value, of the kind its base type name selects, carrying the
      translated tag names. */
  method LookupPrinter(val: Value) returns (c: Chosen)
    ensures var p := Classify(BaseTypeName(val.ty));
      match p
      case StrP => c.StrChosen? && fresh(c.str) && c.str.val == val && !c.str.isNull
      case ListP(elem) => c.ListChosen? && fresh(c.list) && c.list.val == val && c.list.elemTypeName == elem
      case DictP(k, w) => c.DictChosen? && fresh(c.dict) && c.dict.val == val &&
        c.dict.keyTypeName == k && c.dict.valTypeName == w
      case NoPrinter => c.NoneChosen?
  {
    var name := BaseTypeName(val.ty);
    match Classify(name)
    case StrP =>
      var p := new StrPrinter(val);
      c := StrChosen(p);
    case ListP(elem) =>
      var p := new ListPrinter(val, elem);
      c := ListChosen(p);
    case DictP(k, w) =>
      var p := new DictPrinter(val, k, w);
      c := DictChosen(p);
    case NoPrinter =>
      c := NoneChosen;
  }
}
