/**
 Properties of the configuration store that relate several operations:
 reading back what was written, how successive writes combine, the shape
 of sections that writes keep, and how the three coercing getters agree.
 */
module ConfigProperties {
  import opened GoValues
  import opened JsonConfig
  import Decimal

  /** Every section can be read without a panic. */
  predicate AllUsable(sections: Sections) {
    forall s :: s in sections ==> Usable(Some(sections), s)
  }

  /** A write is read back exactly, and every other coordinate reads as before. */
  lemma LookupAfterAssign(sections: Sections, section: string, key: string, value: Value, s: string, k: string)
    requires Usable(Some(sections), section) && Usable(Some(sections), s)
    ensures Usable(Some(Assign(sections, section, key, value)), s)
    ensures Lookup(Some(Assign(sections, section, key, value)), s, k)
      == if s == section && k == key then value else Lookup(Some(sections), s, k)
  {
  }

  /** Writes never leave a section that would panic: the one written is a map afterwards. */
  lemma AssignKeepsAllUsable(sections: Sections, section: string, key: string, value: Value)
    requires AllUsable(sections)
    ensures AllUsable(Assign(sections, section, key, value))
  {
  }

  /** Of two writes to the same coordinate, the last one wins. */
  lemma LastWriteWins(sections: Sections, section: string, key: string, first: Value, second: Value)
    requires Usable(Some(sections), section)
    ensures Assign(Assign(sections, section, key, first), section, key, second)
      == Assign(sections, section, key, second)
  {
    var inner := SectionEntries(sections, section);
    assert SectionEntries(Assign(sections, section, key, first), section) == inner[key := first];
    assert inner[key := first][key := second] == inner[key := second];
  }

  /** Writes to two different coordinates can be made in either order. */
  lemma WritesCommute(sections: Sections, s1: string, k1: string, v1: Value, s2: string, k2: string, v2: Value)
    requires Usable(Some(sections), s1) && Usable(Some(sections), s2)
    requires s1 != s2 || k1 != k2
    ensures Assign(Assign(sections, s1, k1, v1), s2, k2, v2) == Assign(Assign(sections, s2, k2, v2), s1, k1, v1)
  {
    var e1, e2 := SectionEntries(sections, s1), SectionEntries(sections, s2);
    if s1 == s2 {
      assert SectionEntries(Assign(sections, s1, k1, v1), s1) == e1[k1 := v1];
      assert SectionEntries(Assign(sections, s2, k2, v2), s1) == e1[k2 := v2];
      assert e1[k1 := v1][k2 := v2] == e1[k2 := v2][k1 := v1];
    } else {
      assert SectionEntries(Assign(sections, s1, k1, v1), s2) == e2;
      assert SectionEntries(Assign(sections, s2, k2, v2), s1) == e1;
      assert sections[s1 := Object(e1[k1 := v1])][s2 := Object(e2[k2 := v2])]
          == sections[s2 := Object(e2[k2 := v2])][s1 := Object(e1[k1 := v1])];
    }
  }

  /** Writing the value a key already holds leaves the store as it was. */
  lemma RewriteChangesNothing(sections: Sections, section: string, key: string)
    requires HasEntry(Some(sections), section, key)
    ensures Assign(sections, section, key, Lookup(Some(sections), section, key)) == sections
  {
    var inner := sections[section].entries;
    assert inner[key := inner[key]] == inner;
    assert sections[section := Object(inner)] == sections;
  }

  /**
   A missing coordinate, including any coordinate of a nil map, which a
   failed open (and most failed decodes) leaves, reads as "" and as a zero
   with a conversion error naming it.
   */
  lemma MissingEntryDefaults(lib: Library, st: Store, section: string, key: string)
    requires Usable(st, section) && !HasEntry(st, section, key)
    ensures AsString(lib, Lookup(st, section, key)) == ""
    ensures AsInt(lib, section, key, Lookup(st, section, key))
      == Ret(0, Some(Error("convert to int in: " + section + "." + key)))
    ensures AsFloat64(lib, section, key, Lookup(st, section, key))
      == Ret(0, Some(Error("convert to float64 in: " + section + "." + key)))
  {
  }

  /** `GetAsInt` fails exactly on the unsupported types and on strings `strconv.Atoi` rejects. */
  lemma IntErrorCases(lib: Library, section: string, key: string, v: Value)
    ensures AsInt(lib, section, key, v).err.Some?
      <==> IntUnsupported(v) || (v.Str? && lib.atoi(v.str).err.Some?)
  {
  }

  /** `GetAsFloat64` fails exactly outside strings and floats, and on strings `strconv.ParseFloat` rejects. */
  lemma FloatErrorCases(lib: Library, section: string, key: string, v: Value)
    ensures AsFloat64(lib, section, key, v).err.Some?
      <==> !FloatReadable(v) || (v.Str? && lib.parseFloat(v.str).err.Some?)
  {
  }

  /** For an integer that fits Go's `int`, the text `GetAsString` gives denotes the number `GetAsInt` gives. */
  lemma StringAndIntAgree(lib: Library, section: string, key: string, v: Value)
    requires IsInteger(v) && (v.Uint64? ==> v.u64 < TWO_TO_63)
    ensures AsInt(lib, section, key, v) == Ret(Decimal.DecimalValue(AsString(lib, v)), None)
    ensures Decimal.FormatInt(AsInt(lib, section, key, v).value) == AsString(lib, v)
  {
    Decimal.DecimalRoundTrip(AsString(lib, v));
  }

  /**
   A `uint64` above the largest `int` is not rejected: `GetAsInt` returns it
   wrapped to a negative number while `GetAsString` still shows the unsigned value.
   */
  lemma Uint64Wraps(lib: Library, section: string, key: string, u: GoUint64)
    requires u >= TWO_TO_63
    ensures AsInt(lib, section, key, Uint64(u)) == Ret(u - TWO_TO_64, None)
    ensures AsInt(lib, section, key, Uint64(u)).value < 0
    ensures Decimal.DecimalValue(AsString(lib, Uint64(u))) == u
  {
  }

  /** A float's text is the formatting of what `GetAsFloat64` reads from it. */
  lemma FloatTextMatchesReading(lib: Library, section: string, key: string, v: Value)
    requires v.F32? || v.F64?
    ensures AsFloat64(lib, section, key, v).err == None
    ensures AsString(lib, v) == lib.formatFloat(AsFloat64(lib, section, key, v).value)
  {
  }

  /** IEEE 754 bits of the float64 8080.0, the number JSON decoding yields for `8080`. */
  const BITS_8080: Float64 := 0x40BF_9000_0000_0000

  /**
   Loading `{"server": {"port": 8080, "debug": true, "name": "api"}}`, reading
   it back through every getter, and adding a duration-valued key to a new section.
   */
  method ServerExample(lib: Library)
    requires lib.truncate64(BITS_8080) == 8080
    requires lib.parseFloat("api").err.Some?
  {
    var server := Object(map["port" := F64(BITS_8080), "debug" := Bool(true), "name" := Str("api")]);
    var c, err := Config.ReadConfig(Opened(Decoded(Some(map["server" := server]))));
    assert err == None;
    assert c.GetAsInt(lib, "server", "port") == Ret(8080, None);
    assert c.GetAsString(lib, "server", "debug") == "true";
    assert c.GetAsString(lib, "server", "name") == "api";
    assert c.GetAsFloat64(lib, "server", "name").err.Some?;
    assert c.GetAsInt(lib, "server", "timeout") == Ret(0, Some(Error("convert to int in: " + "server" + "." + "timeout")));

    c.SetValue("cache", "ttl", Duration(5_000_000_000));
    assert c.Get("cache", "ttl") == Duration(5_000_000_000);
    assert c.GetAsInt(lib, "cache", "ttl").err.Some?;
    assert c.GetAsString(lib, "server", "name") == "api";
  }

  /**
   A decode that fails after filling part of the map (a number too large for
   a float64, skipped as nil) still returns the error, and the entries that
   were decoded stay readable.
   */
  method PartialDecodeExample(lib: Library, cause: Error)
  {
    var left := map["s" := Object(map["ok" := Str("x"), "big" := Nil])];
    var c, err := Config.ReadConfig(Opened(DecodeFailed(cause, Some(left))));
    assert err == Some(Error("decode json: " + cause.message));
    assert c.GetAsString(lib, "s", "ok") == "x";
    assert c.Get("s", "big") == Nil;
  }
}
