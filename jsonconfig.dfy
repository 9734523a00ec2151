/**
 The configuration store of jsonconfig.go: a two-level mapping from section
 to key to a dynamically typed value, loaded once from a JSON document, read
 through `Get` and three coercing getters, and updated in place by `SetValue`.
 The reader/writer lock around every access is left out; the operations are
 sequential.
 */
module JsonConfig {
  import opened GoValues
  import Decimal

  /** The top-level map, section name to section value. */
  type Sections = map<string, Value>

  /** The struct field `m`: `None` is the nil map of the zero `Config`, which a failed open leaves behind. */
  type Store = Option<Sections>

  /**
   The float, time and parsing conversions the getters call, left
   uninterpreted: the library calls `strconv.FormatFloat`,
   `strconv.ParseFloat`, `strconv.Atoi` and the `time` formatters, and the
   language conversions `float64(f)` and `int(f)` on floats. Integer and bool
   formatting are modelled exactly (`Decimal`, `AsString`).
   */
  datatype Library = Library(
    formatFloat: Float64 -> string,      // strconv.FormatFloat(f, 'f', -1, 64)
    widen: Float32 -> Float64,           // float64(f)
    durationString: GoInt64 -> string,   // time.Duration.String
    formatRFC3339: Timestamp -> string,  // time.Time.Format(time.RFC3339)
    parseFloat: string -> Ret<Float64>,  // strconv.ParseFloat(s, 64)
    atoi: string -> Ret<GoInt>,          // strconv.Atoi
    truncate32: Float32 -> GoInt,        // int(f) for a float32
    truncate64: Float64 -> GoInt)        // int(f) for a float64

  /**
   A section can be read without a panic: the map is nil, the section is
   missing or nil, or it holds a `map[string]interface{}`. Any other section
   value (JSON `{"a": 5}` decodes to one) makes the type assertion panic.
   */
  predicate Usable(st: Store, section: string) {
    || st.None?
    || section !in st.value
    || st.value[section].Nil?
    || st.value[section].Object?
  }

  /** The store holds an entry for `key` in the map of `section`. */
  predicate HasEntry(st: Store, section: string, key: string) {
    && st.Some?
    && section in st.value
    && st.value[section].Object?
    && key in st.value[section].entries
  }

  /** What `Get` answers: the stored entry, or the nil interface when there is none. */
  function Lookup(st: Store, section: string, key: string): (v: Value)
    requires Usable(st, section)
    ensures HasEntry(st, section, key) ==> v == st.value[section].entries[key]
    ensures !HasEntry(st, section, key) ==> v == Nil
    ensures st.None? ==> v == Nil
  {
    var tmp := if st.Some? && section in st.value then st.value[section] else Nil;
    if tmp != Nil then
      var inner := tmp.entries;
      if key in inner then inner[key] else Nil
    else
      Nil
  }

  /** What `SetValue` leaves in the top-level map. */
  function Assign(sections: Sections, section: string, key: string, value: Value): (r: Sections)
    requires Usable(Some(sections), section)
    ensures r.Keys == sections.Keys + {section}
    ensures forall s :: s in sections && s != section ==> r[s] == sections[s]
    ensures r[section].Object? && key in r[section].entries && r[section].entries[key] == value
    ensures section !in sections || sections[section].Nil? ==> r[section].entries.Keys == {key}
    ensures section in sections && sections[section].Object? ==>
      && r[section].entries.Keys == sections[section].entries.Keys + {key}
      && forall k :: k in sections[section].entries && k != key ==>
           r[section].entries[k] == sections[section].entries[k]
  {
    sections[section := Object(SectionEntries(sections, section)[key := value])]
  }

  /** The map `SetValue` writes into: the section's own, or a new empty one. */
  function SectionEntries(sections: Sections, section: string): map<string, Value> {
    if section in sections && sections[section].Object? then sections[section].entries else map[]
  }

  predicate IsInteger(v: Value) {
    v.Int? || v.Int32? || v.Int64? || v.Uint32? || v.Uint64?
  }

  /** The number an integer value holds, whatever its width. */
  function IntegerValue(v: Value): int
    requires IsInteger(v)
  {
    match v
    case Int(i) => i
    case Int32(i) => i
    case Int64(i) => i
    case Uint32(u) => u
    case Uint64(u) => u
  }

  /** The dynamic types `GetAsString` turns into the empty string. */
  predicate StringDefault(v: Value) {
    v.Nil? || v.Object? || v.Other?
  }

  /** The type switch of `GetAsString`: never an error, "" for what it does not know. */
  function AsString(lib: Library, v: Value): (r: string)
    ensures v.Str? ==> r == v.str
    ensures IsInteger(v) ==> Decimal.IsDecimal(r) && Decimal.DecimalValue(r) == IntegerValue(v)
    ensures v.Bool? ==> r == (if v.b then "true" else "false")
    ensures v.F32? ==> r == lib.formatFloat(lib.widen(v.f32))
    ensures v.F64? ==> r == lib.formatFloat(v.f64)
    ensures v.Duration? ==> r == lib.durationString(v.nanos)
    ensures v.Time? ==> r == lib.formatRFC3339(v.at)
    ensures StringDefault(v) ==> r == ""
  {
    match v
    case Str(s) => s
    case Int(i) => Decimal.FormatInt(i)
    case Int32(i) => Decimal.FormatInt(i)
    case Int64(i) => Decimal.FormatInt(i)
    case Uint32(u) => Decimal.FormatNat(u)
    case Uint64(u) => Decimal.FormatNat(u)
    case Bool(b) => if b then "true" else "false"
    case F32(f) => lib.formatFloat(lib.widen(f))
    case F64(f) => lib.formatFloat(f)
    case Duration(d) => lib.durationString(d)
    case Time(t) => lib.formatRFC3339(t)
    case _ => ""
  }

  /** The dynamic types `GetAsFloat64` accepts. */
  predicate FloatReadable(v: Value) {
    v.Str? || v.F32? || v.F64?
  }

  /** The type switch of `GetAsFloat64`. */
  function AsFloat64(lib: Library, section: string, key: string, v: Value): (r: Ret<Float64>)
    ensures v.Str? ==> r == lib.parseFloat(v.str)
    ensures v.F32? ==> r == Ret(lib.widen(v.f32), None)
    ensures v.F64? ==> r == Ret(v.f64, None)
    ensures !FloatReadable(v) ==>
      r == Ret(0, Some(Error("convert to float64 in: " + section + "." + key)))
  {
    match v
    case Str(s) => lib.parseFloat(s)
    case F32(f) => Ret(lib.widen(f), None)
    case F64(f) => Ret(f, None)
    case _ => Ret(0, Some(Error("convert to float64 in: " + section + "." + key)))
  }

  /** The dynamic types `GetAsInt` rejects with a conversion error. */
  predicate IntUnsupported(v: Value) {
    v.Nil? || v.Duration? || v.Time? || v.Object? || v.Other?
  }

  /** The type switch of `GetAsInt`. */
  function AsInt(lib: Library, section: string, key: string, v: Value): (r: Ret<GoInt>)
    ensures v.Str? ==> r == lib.atoi(v.str)
    ensures v.Int? || v.Int32? || v.Int64? || v.Uint32? ==> r == Ret(IntegerValue(v), None)
    ensures v.Uint64? ==>
      && r.err == None
      && (r.value - v.u64) % TWO_TO_64 == 0
      && (r.value == v.u64 <==> v.u64 < TWO_TO_63)
    ensures v.Bool? ==> r == Ret(if v.b then 1 else 0, None)
    ensures v.F32? ==> r == Ret(lib.truncate32(v.f32), None)
    ensures v.F64? ==> r == Ret(lib.truncate64(v.f64), None)
    ensures IntUnsupported(v) ==>
      r == Ret(0, Some(Error("convert to int in: " + section + "." + key)))
  {
    match v
    case Str(s) => lib.atoi(s)
    case Int(i) => Ret(i, None)
    case Int32(i) => Ret(ToInt(i), None)
    case Int64(i) => Ret(ToInt(i), None)
    case Uint32(u) => Ret(ToInt(u), None)
    case Uint64(u) => Ret(ToInt(u), None)
    case Bool(b) => if b then Ret(1, None) else Ret(0, None)
    case F32(f) => Ret(lib.truncate32(f), None)
    case F64(f) => Ret(lib.truncate64(f), None)
    case _ => Ret(0, Some(Error("convert to int in: " + section + "." + key)))
  }

  /**
   What decoding the opened file into `m` gave: an error together with
   whatever the decoder had left in `m` (nil after a syntax error or a top
   level that is not an object, partly filled after a skipped field), or the
   decoded map (nil for JSON `null`).
   */
  datatype DecodeOutcome = DecodeFailed(cause: Error, left: Store) | Decoded(top: Store)

  /** What opening the configuration file gave. */
  datatype OpenOutcome = OpenFailed(cause: Error) | Opened(decoded: DecodeOutcome)

  class Config {
    var m: Store

    /** The zero value `var c Config`: a nil map. */
    constructor ()
      ensures m == None
    {
      m := None;
    }

    /**
     `ReadConfig`: the store is returned even on failure. An open failure
     leaves the map nil; a decode failure leaves what the decoder wrote. The
     cause is wrapped, as `errors.Wrap` does, in the context of the step that
     failed.
     */
    static method ReadConfig(file: OpenOutcome) returns (c: Config, err: Option<Error>)
      ensures fresh(c)
      ensures err.None? <==> file.Opened? && file.decoded.Decoded?
      ensures file.OpenFailed? ==>
        c.m == None && err == Some(Error("read file: " + file.cause.message))
      ensures file.Opened? && file.decoded.DecodeFailed? ==>
        c.m == file.decoded.left && err == Some(Error("decode json: " + file.decoded.cause.message))
      ensures file.Opened? && file.decoded.Decoded? ==> c.m == file.decoded.top
    {
      c := new Config();
      match file
      case OpenFailed(cause) =>
        err := Some(Error("read file: " + cause.message));
      case Opened(decoded) =>
        match decoded
        case DecodeFailed(cause, left) =>
          c.m := left;
          err := Some(Error("decode json: " + cause.message));
        case Decoded(top) =>
          c.m := top;
          err := None;
    }

    function Get(section: string, key: string): (v: Value)
      reads this
      requires Usable(m, section)
      ensures v == Lookup(m, section, key)
    {
      Lookup(m, section, key)
    }

    function GetAsString(lib: Library, section: string, key: string): (r: string)
      reads this
      requires Usable(m, section)
      ensures r == AsString(lib, Lookup(m, section, key))
    {
      AsString(lib, Get(section, key))
    }

    function GetAsFloat64(lib: Library, section: string, key: string): (r: Ret<Float64>)
      reads this
      requires Usable(m, section)
      ensures r == AsFloat64(lib, section, key, Lookup(m, section, key))
    {
      AsFloat64(lib, section, key, Get(section, key))
    }

    function GetAsInt(lib: Library, section: string, key: string): (r: Ret<GoInt>)
      reads this
      requires Usable(m, section)
      ensures r == AsInt(lib, section, key, Lookup(m, section, key))
    {
      AsInt(lib, section, key, Get(section, key))
    }

    /**
     `SetValue`: a missing or nil section first gets a fresh empty map, then
     the key is written into that section's map. Writing into a nil map
     panics, so the map must have been loaded.
     */
    method SetValue(section: string, key: string, value: Value)
      requires m.Some? && Usable(m, section)
      modifies this
      ensures m == Some(Assign(old(m).value, section, key, value))
      ensures Get(section, key) == value
      ensures forall s :: Usable(old(m), s) ==> Usable(m, s)
      ensures forall s, k :: Usable(old(m), s) && (s != section || k != key) ==>
        Lookup(m, s, k) == Lookup(old(m), s, k)
    {
      ghost var before := m.value;
      var tmp := if section in m.value then m.value[section] else Nil;
      if tmp == Nil {
        tmp := Object(map[]);
        m := Some(m.value[section := tmp]);
      }
      m := Some(m.value[section := Object(tmp.entries[key := value])]);
      assert m.value == before[section := Object(tmp.entries[key := value])];
    }
  }
}
