/** The part of a GDB value the Bismut printers look at, with GDB's memory reads made
    explicit: every read either yields a value or fails, and a failed read is what the
    printers catch with their `except Exception` fallbacks. */
module Runtime {
  import opened TypeNames

  newtype byte = x: int | 0 <= x < 256

  /** The outcome of one read of the debuggee's memory through GDB. */
  datatype Mem<T> = Ok(value: T) | Fault

  /** The fields of a runtime struct, each read as an integer (pointer fields as their
      address, 0 for NULL). A name the map lacks is a field the struct does not have, and
      asking GDB for it fails like an unreadable one. */
  type Fields = map<string, Mem<int>>

  function Field(f: Fields, name: string): (r: Mem<int>)
    ensures name !in f ==> r == Fault
    ensures name in f ==> r == f[name]
  {
    if name in f then f[name] else Fault
  }

  /** What a runtime struct holds: its fields, the bytes readable at its `data` address
      (`Str`), and the entries at its `e` address (`Dict`), entry i at index i. An entry
      past the end of `slots` cannot be read. */
  datatype Target = Target(fields: Fields, text: seq<byte>, slots: seq<Fields>)

  /** A value handed to a printer: a struct, or a pointer to one when `ty` is a pointer
      type. `bits` is `int(v)` of the pointer (unused for a struct). */
  datatype Value = Value(ty: CType, bits: Mem<int>, target: Target)

  /** The first step of every printer: looking through a pointer. */
  datatype Deref = NullPointer | Object(fields: Fields) | Unreadable

  function Dereference(v: Value): (d: Deref)
    ensures d.NullPointer? <==> v.ty.PointerType? && v.bits == Ok(0)
    ensures d.Unreadable? <==> v.ty.PointerType? && v.bits.Fault?
    ensures d.Object? ==> d.fields == v.target.fields
  {
    if v.ty.PointerType? then
      match v.bits
      case Fault => Unreadable
      case Ok(a) => if a == 0 then NullPointer else Object(v.target.fields)
    else Object(v.target.fields)
  }

  /** A field of the struct a value denotes; a null or unreadable pointer has none. */
  function FieldOf(v: Value, name: string): (r: Mem<int>)
    ensures Dereference(v).Object? ==> r == Field(v.target.fields, name)
    ensures !Dereference(v).Object? ==> r == Fault
  {
    match Dereference(v)
    case Object(f) => Field(f, name)
    case _ => Fault
  }

  /** Reading n bytes from a `Str`'s data, as `data.string('utf-8', 'replace', n)` does
      before decoding. */
  function ReadBytes(text: seq<byte>, n: int): (r: Mem<seq<byte>>)
    ensures r.Ok? <==> 0 <= n <= |text|
    ensures r.Ok? ==> r.value == text[..n] && |r.value| == n
  {
    if 0 <= n <= |text| then Ok(text[..n]) else Fault
  }

  /** `int(entries[i]['st'])`: the state of dictionary entry i. */
  function SlotState(slots: seq<Fields>, i: nat): (r: Mem<int>)
    ensures i >= |slots| ==> r == Fault
    ensures i < |slots| ==> r == Field(slots[i], "st")
  {
    if i < |slots| then Field(slots[i], "st") else Fault
  }

  /** A child value as GDB receives it: not read yet, only located. `data[i]` of a list,
      and `entries[i]['key']` / `entries[i]['value']` of a dictionary. */
  datatype Child =
    | Element(array: int, index: nat)
    | SlotKey(entries: int, slot: nat)
    | SlotValue(entries: int, slot: nat)
}
