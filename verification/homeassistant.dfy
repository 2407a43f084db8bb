/**
 * Home Assistant MQTT discovery: the `JsonBuilder` that writes discovery
 * messages, the topic paths of a device, the last-will settings for
 * availability, and the cover's state payloads and command dispatch.
 *
 * The builder's text is tied to a document value: the fields written at every
 * open level, and the key of every open dictionary. Rendering that document
 * gives back the text. `EnterDict` as written opens a dictionary with its key
 * only and no "{"; `opensBrace` selects that behaviour (`false`) or a builder
 * that writes the brace (`true`). Only the second writes the document as JSON.
 */
module HomeAssistant {
  import opened Wrappers
  import Mqtt

  // ---------------------------------------------------------------------------
  // Documents and their text
  // ---------------------------------------------------------------------------

  /** The values a discovery message holds. */
  datatype Json = Str(text: string) | Bool(flag: bool) | Obj(fields: seq<Field>)
  datatype Field = Field(key: string, value: Json)

  function Quote(s: string): string
  {
    "\"" + s + "\""
  }

  /** What `Key` writes before a key. */
  function Sep(wantSep: bool): string
  {
    if wantSep then ", " else ""
  }

  /** What opens a nested dictionary: "{" when `brace`, nothing as written. */
  function OpenBrace(brace: bool): string
  {
    if brace then "{" else ""
  }

  function RenderValue(v: Json, brace: bool): string
    decreases v
  {
    match v
    case Str(t) => Quote(t)
    case Bool(b) => if b then "true" else "false"
    case Obj(fs) => OpenBrace(brace) + RenderFields(fs, brace) + "}"
  }

  function RenderField(f: Field, brace: bool): string
    decreases f
  {
    Quote(f.key) + ": " + RenderValue(f.value, brace)
  }

  /** The fields of a level, separated by ", ". */
  function RenderFields(fs: seq<Field>, brace: bool): string
    decreases fs
  {
    if |fs| == 0 then ""
    else
      var n := |fs| - 1;
      RenderFields(fs[..n], brace) + Sep(n > 0) + RenderField(fs[n], brace)
  }

  /** The text of a finished message with top-level fields `fs`. */
  function Document(fs: seq<Field>, brace: bool): (d: string)
    ensures |d| >= 2 && d[0] == '{' && d[|d| - 1] == '}'
  {
    "{" + RenderFields(fs, brace) + "}"
  }

  /** With braces, a finished message is the JSON text of its object. */
  lemma DocumentIsObject(fs: seq<Field>)
    ensures Document(fs, true) == RenderValue(Obj(fs), true)
  {
  }

  /** The text of a builder with open dictionaries `keys` (outermost first) and
    * `levels[k]` the fields written so far at depth `k`. */
  function OpenText(keys: seq<string>, levels: seq<seq<Field>>, brace: bool): (t: string)
    requires |levels| == |keys| + 1
    decreases |keys|, 1
  {
    OpeningText(keys, levels[..|keys|], brace) + RenderFields(levels[|keys|], brace)
  }

  /** The builder's text always starts with the outer "{", and with no
    * dictionary open, one more "}" finishes the document. */
  lemma {:induction false} OpenTextShape(keys: seq<string>, levels: seq<seq<Field>>, brace: bool)
    requires |levels| == |keys| + 1
    ensures |OpenText(keys, levels, brace)| >= 1 && OpenText(keys, levels, brace)[0] == '{'
    ensures |keys| == 0 ==> OpenText(keys, levels, brace) + "}" == Document(levels[0], brace)
  {
    var n := |keys|;
    if n > 0 {
      OpenTextShape(keys[..n - 1], levels[..n], brace);
    }
  }

  /** The text up to where the innermost level's fields begin; `outer` are the
    * levels around it. */
  function OpeningText(keys: seq<string>, outer: seq<seq<Field>>, brace: bool): string
    requires |outer| == |keys|
    decreases |keys|, 0
  {
    if |keys| == 0 then "{"
    else
      var n := |keys|;
      OpenText(keys[..n - 1], outer, brace) + Sep(outer[n - 1] != []) + Quote(keys[n - 1]) + ": " + OpenBrace(brace)
  }

  /** `levels` with `fs` written at the innermost level. */
  function AddedAll(levels: seq<seq<Field>>, fs: seq<Field>): (r: seq<seq<Field>>)
    requires |levels| > 0
    ensures |r| == |levels| && r[..|levels| - 1] == levels[..|levels| - 1]
    ensures r[|levels| - 1] == levels[|levels| - 1] + fs
  {
    levels[|levels| - 1 := levels[|levels| - 1] + fs]
  }

  lemma AddedAllNothing(levels: seq<seq<Field>>)
    requires |levels| > 0
    ensures AddedAll(levels, []) == levels
  {
    assert levels[|levels| - 1] + [] == levels[|levels| - 1];
  }

  lemma AddedAllTwice(levels: seq<seq<Field>>, a: seq<Field>, b: seq<Field>)
    requires |levels| > 0
    ensures AddedAll(AddedAll(levels, a), b) == AddedAll(levels, a + b)
  {
    var n := |levels| - 1;
    assert levels[n] + a + b == levels[n] + (a + b);
  }

  /** `levels` after the innermost dictionary, the one under the last key, is closed. */
  function AfterClose(keys: seq<string>, levels: seq<seq<Field>>): seq<seq<Field>>
    requires |keys| > 0 && |levels| == |keys| + 1
  {
    var n := |keys|;
    AddedAll(levels[..n], [Field(keys[n - 1], Obj(levels[n]))])
  }

  lemma RenderFieldsAppend(fs: seq<Field>, f: Field, brace: bool)
    ensures RenderFields(fs + [f], brace) == RenderFields(fs, brace) + Sep(fs != []) + RenderField(f, brace)
  {
    assert (fs + [f])[..|fs|] == fs;
  }

  /** Writing one field at the innermost level appends its text, after a
    * separator exactly when the level already holds a field. */
  lemma OpenTextAdd(keys: seq<string>, levels: seq<seq<Field>>, f: Field, brace: bool)
    requires |levels| == |keys| + 1
    ensures OpenText(keys, AddedAll(levels, [f]), brace) ==
            OpenText(keys, levels, brace) + Sep(levels[|keys|] != []) + RenderField(f, brace)
  {
    var n := |keys|;
    InnermostGrows(keys, levels, [f], brace);
    RenderFieldsAppend(levels[n], f, brace);
    Associate(OpeningText(keys, levels[..n], brace), RenderFields(levels[n], brace), Sep(levels[n] != []), RenderField(f, brace));
  }

  /** Only the innermost level's text changes when fields are written there. */
  lemma InnermostGrows(keys: seq<string>, levels: seq<seq<Field>>, fs: seq<Field>, brace: bool)
    requires |levels| == |keys| + 1
    ensures OpenText(keys, AddedAll(levels, fs), brace) ==
            OpeningText(keys, levels[..|keys|], brace) + RenderFields(levels[|keys|] + fs, brace)
    ensures OpenText(keys, levels, brace) == OpeningText(keys, levels[..|keys|], brace) + RenderFields(levels[|keys|], brace)
  {
    var r := AddedAll(levels, fs);
    assert r[..|keys|] == levels[..|keys|];
  }

  lemma Associate(a: string, b: string, c: string, d: string)
    ensures a + (b + c + d) == a + b + c + d
  {
  }

  /** Opening a dictionary appends its key and, with braces, "{". */
  lemma OpenTextEnter(keys: seq<string>, levels: seq<seq<Field>>, k: string, brace: bool)
    requires |levels| == |keys| + 1
    ensures OpenText(keys + [k], levels + [[]], brace) ==
            OpenText(keys, levels, brace) + Sep(levels[|keys|] != []) + Quote(k) + ": " + OpenBrace(brace)
  {
    var n := |keys|;
    assert (keys + [k])[..n] == keys;
    assert (levels + [[]])[..n + 1] == levels;
    assert (levels + [[]])[n + 1] == [];
    var o := OpeningText(keys + [k], levels, brace);
    assert o == OpenText(keys, levels, brace) + Sep(levels[n] != []) + Quote(k) + ": " + OpenBrace(brace);
    assert OpenText(keys + [k], levels + [[]], brace) == o + "";
  }

  /** Closing the innermost dictionary appends "}" and turns it into a field of its parent. */
  lemma OpenTextExit(keys: seq<string>, levels: seq<seq<Field>>, brace: bool)
    requires |keys| > 0 && |levels| == |keys| + 1
    ensures OpenText(keys[..|keys| - 1], AfterClose(keys, levels), brace) == OpenText(keys, levels, brace) + "}"
  {
    var n := |keys|;
    var k := keys[n - 1];
    var body := RenderFields(levels[n], brace);
    var parent := OpenText(keys[..n - 1], levels[..n], brace);
    var sep := Sep(levels[n - 1] != []);
    ClosedDictionaryText(keys, levels, brace);
    InnermostText(keys, levels, brace);
    Regroup(parent, sep, Quote(k), ": ", OpenBrace(brace), body, "}");
  }

  /** The closed dictionary is written as its parent's last field. */
  lemma ClosedDictionaryText(keys: seq<string>, levels: seq<seq<Field>>, brace: bool)
    requires |keys| > 0 && |levels| == |keys| + 1
    ensures var n := |keys|;
            OpenText(keys[..n - 1], AfterClose(keys, levels), brace) ==
            OpenText(keys[..n - 1], levels[..n], brace) + Sep(levels[n - 1] != []) +
            (Quote(keys[n - 1]) + ": " + OpenBrace(brace) + RenderFields(levels[n], brace) + "}")
  {
    var n := |keys|;
    var inner := Field(keys[n - 1], Obj(levels[n]));
    assert AfterClose(keys, levels) == AddedAll(levels[..n], [inner]);
    OpenTextAdd(keys[..n - 1], levels[..n], inner, brace);
    assert levels[..n][n - 1] == levels[n - 1];
    DictionaryFieldText(keys[n - 1], levels[n], brace);
  }

  lemma DictionaryFieldText(k: string, fs: seq<Field>, brace: bool)
    ensures RenderField(Field(k, Obj(fs)), brace) == Quote(k) + ": " + OpenBrace(brace) + RenderFields(fs, brace) + "}"
  {
    assert RenderValue(Obj(fs), brace) == OpenBrace(brace) + RenderFields(fs, brace) + "}";
  }

  /** The text of an open dictionary: its parent, its key, and its fields. */
  lemma InnermostText(keys: seq<string>, levels: seq<seq<Field>>, brace: bool)
    requires |keys| > 0 && |levels| == |keys| + 1
    ensures var n := |keys|;
            OpenText(keys, levels, brace) ==
            OpenText(keys[..n - 1], levels[..n], brace) + Sep(levels[n - 1] != []) + Quote(keys[n - 1]) + ": " +
            OpenBrace(brace) + RenderFields(levels[n], brace)
  {
    var n := |keys|;
    assert levels[..n][n - 1] == levels[n - 1];
  }

  lemma Regroup(p: string, s: string, q: string, c: string, b: string, body: string, z: string)
    ensures p + s + (q + c + b + body + z) == p + s + q + c + b + body + z
  {
  }

  // ---------------------------------------------------------------------------
  // The builder
  // ---------------------------------------------------------------------------

  class JsonBuilder {
    /** `false`: `EnterDict` as written, with no "{"; `true`: with it. */
    const opensBrace: bool
    var json: string
    var wantSep: bool
    /** The keys of the open dictionaries, outermost first. */
    ghost var keys: seq<string>
    /** The fields written at the top level and in every open dictionary. */
    ghost var levels: seq<seq<Field>>

    /** The text is the document so far, and a separator is wanted exactly
      * when the innermost level already holds a field. */
    ghost predicate Valid()
      reads this
    {
      |levels| == |keys| + 1 &&
      json == OpenText(keys, levels, opensBrace) &&
      wantSep == (levels[|keys|] != [])
    }

    constructor (opensBrace: bool)
      ensures Valid() && this.opensBrace == opensBrace
      ensures keys == [] && levels == [[]] && json == "{" && !wantSep
    {
      this.opensBrace := opensBrace;
      json := "{";
      wantSep := false;
      keys := [];
      levels := [[]];
    }

    /** The private `Key`: separator if wanted, then the quoted key and ": ". */
    method Key(key: string)
      modifies this`json
      ensures json == old(json) + Sep(wantSep) + Quote(key) + ": "
    {
      if wantSep {
        json := json + ", ";
      }
      json := json + "\"";
      json := json + key;
      json := json + "\": ";
    }

    /** `Kv(key, std::string_view)`: the value is quoted and not escaped. */
    method KvString(key: string, value: string)
      requires Valid()
      modifies this`json, this`wantSep, this`levels
      ensures Valid() && keys == old(keys) && levels == AddedAll(old(levels), [Field(key, Str(value))])
      ensures json == old(json) + Sep(old(wantSep)) + Quote(key) + ": " + Quote(value)
    {
      ghost var before, sep := json, Sep(wantSep);
      OpenTextAdd(keys, levels, Field(key, Str(value)), opensBrace);
      Associate(before + sep, Quote(key), ": ", Quote(value));
      Key(key);
      AppendQuoted(value);
      wantSep := true;
      levels := AddedAll(levels, [Field(key, Str(value))]);
    }

    /** The three appends that quote a string value. */
    method AppendQuoted(value: string)
      modifies this`json
      ensures json == old(json) + Quote(value)
    {
      json := json + "\"";
      json := json + value;
      json := json + "\"";
    }

    /** `Kv(key, bool)`: `true` or `false`, unquoted. */
    method KvBool(key: string, b: bool)
      requires Valid()
      modifies this`json, this`wantSep, this`levels
      ensures Valid() && keys == old(keys) && levels == AddedAll(old(levels), [Field(key, Bool(b))])
      ensures json == old(json) + Sep(old(wantSep)) + Quote(key) + ": " + (if b then "true" else "false")
    {
      ghost var before, sep := json, Sep(wantSep);
      OpenTextAdd(keys, levels, Field(key, Bool(b)), opensBrace);
      Associate(before + sep, Quote(key), ": ", if b then "true" else "false");
      Key(key);
      json := json + (if b then "true" else "false");
      wantSep := true;
      levels := AddedAll(levels, [Field(key, Bool(b))]);
    }

    /** `KvIf(key, std::optional<std::string_view>)`: nothing for an absent value. */
    method KvIfString(key: string, value: Option<string>)
      requires Valid()
      modifies this`json, this`wantSep, this`levels
      ensures Valid() && keys == old(keys) && levels == AddedAll(old(levels), OptionalField(key, value))
      ensures value.None? ==> json == old(json) && wantSep == old(wantSep)
      ensures value.Some? ==> json == old(json) + Sep(old(wantSep)) + Quote(key) + ": " + Quote(value.value)
    {
      if value.Some? {
        KvString(key, value.value);
      } else {
        AddedAllNothing(levels);
      }
    }

    /** `EnterDict(key)`: the key, then (with `opensBrace`) "{"; no separator is
      * wanted inside. The `Cleanup` it returns is the caller's `ExitDict`. */
    method EnterDict(key: string)
      requires Valid()
      modifies this`json, this`wantSep, this`keys, this`levels
      ensures Valid() && keys == old(keys) + [key] && levels == old(levels) + [[]]
      ensures json == old(json) + Sep(old(wantSep)) + Quote(key) + ": " + OpenBrace(opensBrace)
    {
      OpenTextEnter(keys, levels, key, opensBrace);
      Key(key);
      if opensBrace {
        json := json + "{";
      }
      wantSep := false;
      keys := keys + [key];
      levels := levels + [[]];
    }

    /** `ExitDict()`: "}", and a separator is wanted next. When a dictionary is
      * open, it becomes the last field of its parent. */
    method ExitDict()
      requires Valid()
      modifies this`json, this`wantSep, this`keys, this`levels
      ensures json == old(json) + "}" && wantSep
      ensures |old(keys)| > 0 ==>
                Valid() && keys == old(keys[..|keys| - 1]) && levels == AfterClose(old(keys), old(levels))
    {
      json := json + "}";
      wantSep := true;
      if |keys| > 0 {
        OpenTextExit(keys, levels, opensBrace);
        levels := AfterClose(keys, levels);
        keys := keys[..|keys| - 1];
      }
    }

    /** `Finish() &&`: the text with a closing "}". With no dictionary open it
      * is the document of the top-level fields. */
    method Finish() returns (doc: string)
      requires Valid()
      modifies this`json
      ensures doc == old(json) + "}"
      ensures keys == [] ==> doc == Document(levels[0], opensBrace)
    {
      if keys == [] {
        assert OpeningText(keys, levels[..0], opensBrace) == "{";
        assert json == "{" + RenderFields(levels[0], opensBrace);
      }
      json := json + "}";
      doc := json;
    }
  }

  /** The field `KvIf` writes: none for an absent value. */
  function OptionalField(key: string, value: Option<string>): (fs: seq<Field>)
    ensures |fs| <= 1 && (|fs| == 1 <==> value.Some?)
    ensures value.Some? ==> fs == [Field(key, Str(value.value))]
  {
    match value
    case None => []
    case Some(v) => [Field(key, Str(v))]
  }

  // ---------------------------------------------------------------------------
  // Braces
  // ---------------------------------------------------------------------------

  function Count(c: char, s: string): nat
  {
    if |s| == 0 then 0 else (if s[0] == c then 1 else 0) + Count(c, s[1..])
  }

  /** Closing braces minus opening braces. */
  function Balance(s: string): int
  {
    Count('}', s) - Count('{', s)
  }

  lemma {:induction false} CountAppend(c: char, a: string, b: string)
    ensures Count(c, a + b) == Count(c, a) + Count(c, b)
    decreases |a|
  {
    if |a| > 0 {
      assert (a + b)[1..] == a[1..] + b;
      CountAppend(c, a[1..], b);
    } else {
      assert a + b == b;
    }
  }

  lemma BalanceAppend(a: string, b: string)
    ensures Balance(a + b) == Balance(a) + Balance(b)
  {
    CountAppend('{', a, b);
    CountAppend('}', a, b);
  }

  predicate BraceFree(s: string)
  {
    forall i :: 0 <= i < |s| ==> s[i] != '{' && s[i] != '}'
  }

  lemma {:induction false} BraceFreeBalance(s: string)
    requires BraceFree(s)
    ensures Count('{', s) == 0 && Count('}', s) == 0
    decreases |s|
  {
    if |s| > 0 {
      assert BraceFree(s[1..]) by {
        forall i | 0 <= i < |s[1..]| ensures s[1..][i] != '{' && s[1..][i] != '}' {
          assert s[1..][i] == s[i + 1];
        }
      }
      BraceFreeBalance(s[1..]);
    }
  }

  /** Keys and strings of a document hold no braces of their own. */
  predicate PlainValue(v: Json)
    decreases v
  {
    match v
    case Str(t) => BraceFree(t)
    case Bool(_) => true
    case Obj(fs) => PlainFields(fs)
  }

  predicate PlainFields(fs: seq<Field>)
    decreases fs
  {
    |fs| == 0 || (PlainFields(fs[..|fs| - 1]) && BraceFree(fs[|fs| - 1].key) && PlainValue(fs[|fs| - 1].value))
  }

  /** The number of dictionaries in a document. */
  function Objects(v: Json): nat
    decreases v
  {
    match v
    case Obj(fs) => 1 + ObjectsIn(fs)
    case _ => 0
  }

  function ObjectsIn(fs: seq<Field>): nat
    decreases fs
  {
    if |fs| == 0 then 0 else ObjectsIn(fs[..|fs| - 1]) + Objects(fs[|fs| - 1].value)
  }

  lemma QuoteBalance(s: string)
    requires BraceFree(s)
    ensures Balance(Quote(s)) == 0
  {
    BraceFreeBalance(s);
    BalanceAppend("\"", s);
    BalanceAppend("\"" + s, "\"");
  }

  /** With braces every dictionary is closed by exactly the brace that opened
    * it; as written, each one leaves an unmatched "}". */
  lemma {:induction false} ValueBalance(v: Json, brace: bool)
    requires PlainValue(v)
    ensures Balance(RenderValue(v, brace)) == if brace then 0 else Objects(v)
    decreases v
  {
    match v
    case Str(t) => QuoteBalance(t);
    case Bool(b) =>
      if b {
        assert Balance("true") == 0;
      } else {
        assert Balance("false") == 0;
      }
    case Obj(fs) =>
      FieldsBalance(fs, brace);
      BalanceAppend(OpenBrace(brace), RenderFields(fs, brace));
      BalanceAppend(OpenBrace(brace) + RenderFields(fs, brace), "}");
      assert Balance("}") == 1;
      if brace {
        assert Balance("{") == -1;
      } else {
        assert Balance("") == 0;
      }
  }

  lemma {:induction false} FieldsBalance(fs: seq<Field>, brace: bool)
    requires PlainFields(fs)
    ensures Balance(RenderFields(fs, brace)) == if brace then 0 else ObjectsIn(fs)
    decreases fs
  {
    if |fs| > 0 {
      var n := |fs| - 1;
      var f := fs[n];
      FieldsBalance(fs[..n], brace);
      ValueBalance(f.value, brace);
      QuoteBalance(f.key);
      BalanceAppend(Quote(f.key), ": ");
      assert Balance(": ") == 0;
      BalanceAppend(Quote(f.key) + ": ", RenderValue(f.value, brace));
      BalanceAppend(RenderFields(fs[..n], brace), Sep(n > 0));
      assert Balance(Sep(n > 0)) == 0 by {
        if n > 0 {
          assert Balance(", ") == 0;
        } else {
          assert Balance("") == 0;
        }
      }
      BalanceAppend(RenderFields(fs[..n], brace) + Sep(n > 0), RenderField(f, brace));
    }
  }

  /** A finished message with a nested dictionary has more "}" than "{" as
    * written, and as many of each with braces. */
  lemma DocumentBalance(fs: seq<Field>)
    requires PlainFields(fs)
    ensures Balance(Document(fs, true)) == 0
    ensures Balance(Document(fs, false)) == ObjectsIn(fs)
  {
    FieldsBalance(fs, true);
    FieldsBalance(fs, false);
    assert Balance("{") == -1 && Balance("}") == 1;
    BalanceAppend("{", RenderFields(fs, true));
    BalanceAppend("{" + RenderFields(fs, true), "}");
    BalanceAppend("{", RenderFields(fs, false));
    BalanceAppend("{" + RenderFields(fs, false), "}");
  }

  /** The availability block of a discovery message, as written, leaves one
    * "}" without its "{"; the builder that opens the dictionary balances them. */
  lemma AvailabilityBlockBalance(availabilityTopic: string)
    requires BraceFree(availabilityTopic)
    ensures Balance(Document([Field("availability", Obj(AvailabilityFields(availabilityTopic)))], false)) == 1
    ensures Balance(Document([Field("availability", Obj(AvailabilityFields(availabilityTopic)))], true)) == 0
  {
    AvailabilityFieldsArePlain(availabilityTopic);
    AvailabilityKeyBraceFree();
    SingleField(Field("availability", Obj(AvailabilityFields(availabilityTopic))));
    DocumentBalance([Field("availability", Obj(AvailabilityFields(availabilityTopic)))]);
  }

  lemma AvailabilityKeyBraceFree()
    ensures BraceFree("availability")
  {
  }

  /** The three fields of the availability block hold no braces and no dictionary. */
  lemma AvailabilityFieldsArePlain(availabilityTopic: string)
    requires BraceFree(availabilityTopic)
    ensures PlainFields(AvailabilityFields(availabilityTopic))
    ensures ObjectsIn(AvailabilityFields(availabilityTopic)) == 0
  {
    assert BraceFree("topic") && BraceFree("payload_available") && BraceFree("payload_not_available");
    assert BraceFree(OnlinePayload) && BraceFree(OfflinePayload);
    StringFieldsArePlain(AvailabilityFields(availabilityTopic));
  }

  lemma SingleField(f: Field)
    ensures PlainFields([f]) <==> BraceFree(f.key) && PlainValue(f.value)
    ensures ObjectsIn([f]) == Objects(f.value)
  {
    assert [f][..0] == [];
  }

  /** A level of string fields whose keys and texts hold no braces is plain
    * and holds no dictionary. */
  lemma {:induction false} StringFieldsArePlain(fs: seq<Field>)
    requires forall i :: 0 <= i < |fs| ==> fs[i].value.Str? && BraceFree(fs[i].key) && BraceFree(fs[i].value.text)
    ensures PlainFields(fs) && ObjectsIn(fs) == 0
    decreases |fs|
  {
    if |fs| > 0 {
      var n := |fs| - 1;
      assert forall i :: 0 <= i < n ==> fs[..n][i] == fs[i];
      StringFieldsArePlain(fs[..n]);
    }
  }

  // ---------------------------------------------------------------------------
  // Devices and their topics
  // ---------------------------------------------------------------------------

  /** `DeviceBase::CommonDeviceInfo`. */
  datatype CommonDeviceInfo = CommonDeviceInfo(
    uniqueId: string,
    name: Option<string>,
    component: Option<string>,
    deviceClass: Option<string>,
    alwaysAvailable: bool)

  /** `CommonDeviceInfo(unique_id)`: the member defaults. */
  function NewCommonDeviceInfo(uniqueId: string): (info: CommonDeviceInfo)
    ensures info.uniqueId == uniqueId && info.alwaysAvailable
    ensures info.name.None? && info.component.None? && info.deviceClass.None?
  {
    CommonDeviceInfo(uniqueId, None, None, None, true)
  }

  /** The `base_topic_` the `DeviceBase` constructor formats: "component/unique_id",
    * or the unique id alone without a component. */
  function BaseTopic(info: CommonDeviceInfo): (t: string)
    ensures |t| >= |info.uniqueId| && t[|t| - |info.uniqueId|..] == info.uniqueId
  {
    match info.component
    case Some(c) => c + "/" + info.uniqueId
    case None => info.uniqueId
  }

  /** `DeviceRootTopic`; it dereferences `component` unchecked, so one must be set. */
  function DeviceRootTopic(info: CommonDeviceInfo): (t: string)
    requires info.component.Some?
    ensures t == "homeassistant/" + BaseTopic(info)
  {
    "homeassistant/" + info.component.value + "/" + info.uniqueId
  }

  /** `AbsoluteChannel`: the root topic, a "/" and the suffix. */
  function AbsoluteChannel(info: CommonDeviceInfo, suffix: string): (t: string)
    requires info.component.Some?
    ensures t == "homeassistant/" + BaseTopic(info) + "/" + suffix
  {
    DeviceRootTopic(info) + "/" + suffix
  }

  /** `RelativeChannel`: the suffix under "~", which Home Assistant reads
    * against any base topic as that base, a "/" and the suffix. */
  function RelativeChannel(suffix: string): (t: string)
    ensures forall base :: ExpandBase(t, base) == base + "/" + suffix
  {
    assert ("~/" + suffix)[1..] == "/" + suffix;
    "~/" + suffix
  }

  /** Home Assistant's reading of a topic in a message whose "~" field is `base`. */
  function ExpandBase(topic: string, base: string): string
  {
    if |topic| > 0 && topic[0] == '~' then base + topic[1..] else topic
  }

  /** The root topic is the base topic under "homeassistant/", as the `Device`
    * interface describes it, and a relative channel read against the root is
    * the absolute channel. */
  lemma ChannelsAgree(info: CommonDeviceInfo, suffix: string)
    requires info.component.Some?
    ensures DeviceRootTopic(info) == "homeassistant/" + BaseTopic(info)
    ensures ExpandBase(RelativeChannel(suffix), DeviceRootTopic(info)) == AbsoluteChannel(info, suffix)
    ensures AbsoluteChannel(info, suffix) == "homeassistant/" + BaseTopic(info) + "/" + suffix
  {
    var r := RelativeChannel(suffix);
    assert r[1..] == "/" + suffix;
  }

  /** The base topic ends with the unique id, after a "/" exactly when there is a component. */
  lemma BaseTopicEndsWithId(info: CommonDeviceInfo)
    ensures var t := BaseTopic(info);
            |t| >= |info.uniqueId| && t[|t| - |info.uniqueId|..] == info.uniqueId
    ensures info.component.Some? ==> |BaseTopic(info)| == |info.component.value| + 1 + |info.uniqueId|
    ensures info.component.None? ==> BaseTopic(info) == info.uniqueId
  {
    var t := BaseTopic(info);
    if info.component.Some? {
      assert t == (info.component.value + "/") + info.uniqueId;
    }
  }

  // ---------------------------------------------------------------------------
  // Availability and common discovery fields
  // ---------------------------------------------------------------------------

  const OnlinePayload: string := "online"
  const OfflinePayload: string := "offline"

  /** `SetAvailablityLwt(info)`; `availabilityTopic` is what `AvailabilityTopic()`
    * formats from the board id. */
  function SetAvailablityLwt(info: Mqtt.ConnectInfo, availabilityTopic: string): (r: Mqtt.ConnectInfo)
    ensures r.lwtTopic == availabilityTopic && r.lwtMessage == OfflinePayload
    ensures r.lwtQos == Mqtt.BestEffort && r.lwtRetain
    ensures r.broker == info.broker && r.brokerPort == info.brokerPort && r.clientId == info.clientId
    ensures r.user == info.user && r.password == info.password
  {
    info.(lwtTopic := availabilityTopic, lwtMessage := OfflinePayload, lwtQos := Mqtt.BestEffort, lwtRetain := true)
  }

  /** The will these settings describe is the one `Connect` hands to lwIP, the
    * hard-coded QoS 0 and retain flag included. */
  lemma AvailabilityWillIsSent(info: Mqtt.ConnectInfo, availabilityTopic: string)
    ensures var o := Mqtt.ConnectOptions(SetAvailablityLwt(info, availabilityTopic));
            o.willTopic == availabilityTopic && o.willMessage == OfflinePayload &&
            o.willQos == Mqtt.QosByte(Mqtt.BestEffort) && o.willRetain == 1
  {
    Mqtt.ConnectIgnoresWillQosAndRetain(SetAvailablityLwt(info, availabilityTopic), Mqtt.BestEffort, true);
  }

  /** The fields under "availability". */
  function AvailabilityFields(availabilityTopic: string): seq<Field>
  {
    [Field("topic", Str(availabilityTopic)),
     Field("payload_available", Str(OnlinePayload)),
     Field("payload_not_available", Str(OfflinePayload))]
  }

  /** `AddAvailabilityDiscovery(json)`: a dictionary "availability" with the
    * topic and the two payloads, closed when the `Cleanup` runs. */
  method AddAvailabilityDiscovery(json: JsonBuilder, availabilityTopic: string)
    requires json.Valid()
    modifies json
    ensures json.Valid() && json.keys == old(json.keys)
    ensures json.levels == AddedAll(old(json.levels), [Field("availability", Obj(AvailabilityFields(availabilityTopic)))])
    ensures json.json == old(json.json) + Sep(old(json.wantSep)) +
                         RenderField(Field("availability", Obj(AvailabilityFields(availabilityTopic))), json.opensBrace)
  {
    ghost var keys0, levels0 := json.keys, json.levels;
    var fs := AvailabilityFields(availabilityTopic);
    json.EnterDict("availability");
    json.KvString("topic", availabilityTopic);
    json.KvString("payload_available", OnlinePayload);
    json.KvString("payload_not_available", OfflinePayload);
    FilledLevel(levels0, fs);
    json.ExitDict();
    AfterCloseOfEntered(keys0, levels0, "availability", fs);
    OpenTextAdd(keys0, levels0, Field("availability", Obj(fs)), json.opensBrace);
  }

  /** The three fields written into a fresh level. */
  lemma FilledLevel(levels: seq<seq<Field>>, fs: seq<Field>)
    requires |fs| == 3
    ensures AddedAll(AddedAll(AddedAll(levels + [[]], [fs[0]]), [fs[1]]), [fs[2]]) == levels + [fs]
  {
    assert [] + [fs[0]] + [fs[1]] + [fs[2]] == fs;
  }

  /** Closing a dictionary just entered under `k` with fields `fs`. */
  lemma AfterCloseOfEntered(keys: seq<string>, levels: seq<seq<Field>>, k: string, fs: seq<Field>)
    requires |levels| == |keys| + 1
    ensures AfterClose(keys + [k], levels + [fs]) == AddedAll(levels, [Field(k, Obj(fs))])
    ensures (keys + [k])[..|keys|] == keys
  {
    assert (levels + [fs])[..|keys| + 1] == levels;
  }

  /** The fields `AddCommonInfo` writes, in order. */
  function CommonInfoFields(info: CommonDeviceInfo): (fs: seq<Field>)
    requires info.component.Some?
    ensures |fs| >= 2 && fs[0] == Field("~", Str(DeviceRootTopic(info)))
    ensures (exists j :: 0 <= j < |fs| && fs[j] == Field("unique_id", Str(info.uniqueId)))
    ensures (exists j :: 0 <= j < |fs| && fs[j].key == "name") <==> info.name.Some?
    ensures (exists j :: 0 <= j < |fs| && fs[j].key == "device_class") <==> info.deviceClass.Some?
    ensures |fs| == 2 + |OptionalField("name", info.name)| + |OptionalField("device_class", info.deviceClass)|
  {
    var nm, dc := OptionalField("name", info.name), OptionalField("device_class", info.deviceClass);
    var fs := [Field("~", Str(DeviceRootTopic(info)))] + nm + [Field("unique_id", Str(info.uniqueId))] + dc;
    var u := 1 + |nm|;
    assert fs[u] == Field("unique_id", Str(info.uniqueId));
    assert forall j :: 0 <= j < |fs| ==>
      fs[j].key == (if j == 0 then "~" else if j < u then "name" else if j == u then "unique_id" else "device_class");
    assert info.name.Some? ==> fs[1].key == "name";
    assert info.deviceClass.Some? ==> fs[u + 1].key == "device_class";
    fs
  }

  /** `AddCommonInfo(info, builder)`. */
  method AddCommonInfo(info: CommonDeviceInfo, builder: JsonBuilder)
    requires builder.Valid() && info.component.Some?
    modifies builder
    ensures builder.Valid() && builder.keys == old(builder.keys)
    ensures builder.levels == AddedAll(old(builder.levels), CommonInfoFields(info))
  {
    ghost var levels0 := builder.levels;
    var root, nm, uid, dc := [Field("~", Str(DeviceRootTopic(info)))], OptionalField("name", info.name),
                            [Field("unique_id", Str(info.uniqueId))], OptionalField("device_class", info.deviceClass);
    builder.KvString("~", DeviceRootTopic(info));
    builder.KvIfString("name", info.name);
    AddedAllTwice(levels0, root, nm);
    builder.KvString("unique_id", info.uniqueId);
    AddedAllTwice(levels0, root + nm, uid);
    builder.KvIfString("device_class", info.deviceClass);
    AddedAllTwice(levels0, root + nm + uid, dc);
  }

  // ---------------------------------------------------------------------------
  // The cover
  // ---------------------------------------------------------------------------

  /** `Cover::State`. */
  datatype CoverState = Open | Opening | Closing | Closed | Stopped

  /** `Cover::Command`. */
  datatype Command = OpenCover | CloseCover | StopCover

  /** `StateToPayload`: the payload published on the state topic. */
  function StateToPayload(s: CoverState): (p: string)
    ensures p == "closed" <==> s == Closed || s == Stopped
  {
    match s
    case Open => "open"
    case Opening => "opening"
    case Closing => "closing"
    case Closed => "closed"
    case Stopped => "closed"
  }

  /** Stopped is reported as closed; every other pair of states is told apart. */
  lemma StatePayloadsCollide(a: CoverState, b: CoverState)
    ensures StateToPayload(a) == StateToPayload(b) <==>
            a == b || (a in {Closed, Stopped} && b in {Closed, Stopped})
  {
    assert "open" != "opening" && "opening" != "closing" && "closing" != "closed";
    assert "open" != "closing" && "open" != "closed" && "opening" != "closed";
  }

  function CommandText(c: Command): string
  {
    match c
    case OpenCover => "open"
    case CloseCover => "close"
    case StopCover => "stop"
  }

  predicate StartsWith(s: string, prefix: string)
  {
    |prefix| <= |s| && s[..|prefix|] == prefix
  }

  /** The command `Cover::ReceiveMessage` hands to its handler, if any: the
    * prefixes "open", "close" and "stop" are tried in that order. */
  function ReceiveCommand(payload: string): (c: Option<Command>)
    ensures c.Some? ==> StartsWith(payload, CommandText(c.value))
  {
    if StartsWith(payload, "open") then Some(OpenCover)
    else if StartsWith(payload, "close") then Some(CloseCover)
    else if StartsWith(payload, "stop") then Some(StopCover)
    else None
  }

  /** At most one command is dispatched, and it is the one whose text begins the
    * payload; the order of the tests does not matter, since no command text
    * begins another. */
  lemma ReceiveCommandByPrefix(payload: string, c: Command)
    ensures ReceiveCommand(payload) == Some(c) <==> StartsWith(payload, CommandText(c))
    ensures ReceiveCommand(payload).None? <==> forall d: Command :: !StartsWith(payload, CommandText(d))
  {
    assert CommandText(OpenCover) == "open" && CommandText(CloseCover) == "close" && CommandText(StopCover) == "stop";
    if StartsWith(payload, "open") {
      assert !StartsWith(payload, "close") by { assert payload[1] == 'p'; }
      assert !StartsWith(payload, "stop") by { assert payload[0] == 'o'; }
    } else if StartsWith(payload, "close") {
      assert !StartsWith(payload, "stop") by { assert payload[0] == 'c'; }
    }
    if ReceiveCommand(payload).None? {
      forall d: Command ensures !StartsWith(payload, CommandText(d)) {
        match d
        case OpenCover =>
        case CloseCover =>
        case StopCover =>
      }
    } else {
      var d := ReceiveCommand(payload).value;
      assert StartsWith(payload, CommandText(d));
    }
  }
}
