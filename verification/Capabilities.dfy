/** The capability profile of the environment form (frontend/src/capabilities.ts). */
module Capabilities {
  import opened Common

  datatype Number = Finite(amount: real) | NotANumber | PlusInfinity | MinusInfinity

  /** An unknown value as its typeof tells it apart; Other stands for any object or array. */
  datatype Value = Undefined | Null | Bool(flag: bool) | Num(number: Number) | Str(text: string) | Other(json: string)

  type Record = map<string, Value>

  /** nodes is receptor_node_count; the declared type makes strings and flags total over their fields. */
  datatype Profile = Profile(mode: Value, strings: map<string, string>, nodes: Option<Number>, flags: map<string, bool>)

  const Mode := "management_mode"
  const Nodes := "receptor_node_count"

  /** Assigning to this key calls the setter of Object.prototype and adds no entry. */
  const Proto := "__proto__"

  /** The field lists: the string fields, the flags, and all the known keys. */
  datatype Layout = Layout(strings: seq<string>, flags: seq<string>, known: seq<string>)

  const Form := Layout(
    ["operator_namespace", "cluster_namespace", "terraform_workspace", "backstage_entity_ref", "mcp_endpoint"],
    ["runner_enabled", "builder_pipeline_enabled", "receptor_mesh_enabled", "execution_environments_expected",
     "remote_execution_expected", "content_signing_enabled", "content_signing_expected", "gateway_enforced",
     "developer_portal_expected", "mcp_expected", "metrics_enabled", "automation_reports_enabled",
     "ai_assistant_enabled", "orchestrator_expected"],
    ["management_mode", "operator_namespace", "cluster_namespace", "terraform_workspace", "backstage_entity_ref",
     "mcp_endpoint", "runner_enabled", "builder_pipeline_enabled", "receptor_mesh_enabled", "receptor_node_count",
     "execution_environments_expected", "remote_execution_expected", "content_signing_enabled",
     "content_signing_expected", "gateway_enforced", "developer_portal_expected", "mcp_expected",
     "metrics_enabled", "automation_reports_enabled", "ai_assistant_enabled", "orchestrator_expected"])

  /** No key has two meanings, and the known keys are exactly those with a meaning. */
  ghost predicate Coherent(l: Layout)
  {
    Mode !in l.strings && Mode !in l.flags && Nodes !in l.strings && Nodes !in l.flags && Proto !in l.known &&
    (forall key :: key in l.strings ==> key !in l.flags) &&
    forall key :: key in l.known <==> key == Mode || key == Nodes || key in l.strings || key in l.flags
  }

  /** Every flag ends in d, and no other known key does. */
  lemma FlagsEndInD()
    ensures forall key :: key in Form.flags ==> EndsInD(key)
    ensures forall key :: key in Form.strings ==> !EndsInD(key)
    ensures !EndsInD(Mode) && !EndsInD(Nodes)
  {
  }

  predicate EndsInD(key: string) { key != "" && key[|key| - 1] == 'd' }

  lemma ModeNodesAndProtoApart()
    ensures Mode !in Form.strings && Nodes !in Form.strings && Proto !in Form.known
  {
    assert forall k :: 0 <= k < |Form.known| ==> Form.known[k][0] != '_';
  }

  lemma KnownKeysInOrder()
    ensures Form.known == [Mode] + Form.strings + Form.flags[..3] + [Nodes] + Form.flags[3..]
  {
  }

  lemma {:induction false} FormIsCoherent()
    ensures Coherent(Form)
  {
    FlagsEndInD();
    ModeNodesAndProtoApart();
    KnownKeysInOrder();
    CutMembers(Form.flags, 3);
  }

  lemma CutMembers(s: seq<string>, n: nat)
    requires n <= |s|
    ensures forall key :: key in s <==> key in s[..n] || key in s[n..]
  {
  }

  // ----- Parsing -----

  function AsString(value: Value): string { if value.Str? then value.text else "" }

  function AsBoolean(value: Value): bool { value == Bool(true) }

  function AsNumber(value: Value): Option<Number>
  {
    match value
    case Num(n) => if n.Finite? then Some(n) else None
    case Str(s) => if Trim(s, ScriptSpace) != "" && ParseInt(s).Finite? then Some(ParseInt(s)) else None
    case _ => None
  }

  predicate Digit(c: char) { '0' <= c <= '9' }

  function CountDigits(s: string): (n: nat)
    ensures n <= |s|
  {
    if s != "" && Digit(s[0]) then 1 + CountDigits(s[1..]) else 0
  }

  function Digits(s: string, n: nat): nat
    requires n <= CountDigits(s)
  {
    if n == 0 then 0 else Digits(s, n - 1) * 10 + DigitAt(s, n - 1)
  }

  function DigitAt(s: string, k: nat): nat
    requires k < CountDigits(s)
  {
    if k == 0 then s[0] as int - '0' as int else DigitAt(s[1..], k - 1)
  }

  /** Number.parseInt(s, 10): an optional sign and the longest run of digits. */
  function ParseInt(s: string): Number
  {
    var t := Trim(s, ScriptSpace);
    var signed := t != "" && t[0] in "+-";
    var body := if signed then t[1..] else t;
    var n := Digits(body, CountDigits(body)) as real;
    if CountDigits(body) == 0 then NotANumber
    else if signed && t[0] == '-' then Finite(-n)
    else Finite(n)
  }

  function Get(source: Record, key: string): Value { if key in source then source[key] else Undefined }

  /** value ?? fallback */
  function Or(value: Value, fallback: Value): Value
  {
    if value.Undefined? || value.Null? then fallback else value
  }

  function ParseProfile(l: Layout, source: Record): Profile
  {
    Profile(Or(Get(source, Mode), Str("manual")),
            map key | key in l.strings :: AsString(Get(source, key)),
            AsNumber(Get(source, Nodes)),
            map key | key in l.flags :: AsBoolean(Get(source, key)))
  }

  /** The entries that reach extraCapabilities. */
  function Unknown(l: Layout, source: Record): Record
  {
    map key | key in source && key !in l.known && key != Proto :: source[key]
  }

  /** record[key] = value */
  function Assign(record: Record, key: string, value: Value): Record
  {
    if key == Proto then record else record[key := value]
  }

  datatype Parsed = Parsed(profile: Profile, extra: Record)

  function Parse(l: Layout, source: Record): Parsed
  {
    Parsed(ParseProfile(l, source), Unknown(l, source))
  }

  /** None is a null or undefined argument. */
  method ParseCapabilityProfile(l: Layout, capabilities: Option<Record>) returns (result: Parsed)
    ensures result == Parse(l, if capabilities.Some? then capabilities.value else map[])
  {
    var source: Record := if capabilities.Some? then capabilities.value else map[];
    var extra: Record := map[];
    var left := source.Keys;
    while left != {}
      invariant left <= source.Keys
      invariant forall key :: key in extra <==> key in source && key !in left && key !in l.known && key != Proto
      invariant forall key :: key in extra ==> extra[key] == source[key]
      decreases |left|
    {
      var key :| key in left;
      if key !in l.known {
        extra := Assign(extra, key, source[key]);
      }
      left := left - {key};
    }
    result := Parsed(ParseProfile(l, source), extra);
  }

  // ----- Building -----

  predicate WellTyped(l: Layout, p: Profile)
  {
    p.strings.Keys == (set key | key in l.strings) && p.flags.Keys == (set key | key in l.flags)
  }

  /** The stored value of a string field: None means the key is deleted. */
  function StringEntry(p: Profile, key: string): Option<Value>
  {
    if key in p.strings && Trim(p.strings[key], ScriptSpace) != ""
    then Some(Str(Trim(p.strings[key], ScriptSpace)))
    else None
  }

  function FlagEntry(p: Profile, key: string): Option<Value>
  {
    if key in p.flags && p.flags[key] then Some(Bool(true)) else None
  }

  /** Zero and not-a-number are falsy. */
  predicate Counts(nodes: Option<Number>)
  {
    nodes.Some? && (nodes.value.PlusInfinity? || (nodes.value.Finite? && nodes.value.amount > 0.0))
  }

  function NodesEntry(p: Profile): Option<Value>
  {
    if Counts(p.nodes) then Some(Num(p.nodes.value)) else None
  }

  /** What the result holds under each key. */
  function Entry(l: Layout, p: Profile, extra: Record, key: string): Option<Value>
  {
    if key == Mode then Some(p.mode)
    else if key == Nodes then NodesEntry(p)
    else if key in l.strings then StringEntry(p, key)
    else if key in l.flags then FlagEntry(p, key)
    else if key in extra then Some(extra[key])
    else None
  }

  predicate Holds(m: Record, key: string, entry: Option<Value>)
  {
    match entry
    case None => key !in m
    case Some(value) => key in m && m[key] == value
  }

  /** The record that holds exactly the entries of p and extra. */
  ghost predicate Built(l: Layout, p: Profile, extra: Record, m: Record)
  {
    forall key :: Holds(m, key, Entry(l, p, extra, key))
  }

  lemma BuiltIsUnique(l: Layout, p: Profile, extra: Record, a: Record, b: Record)
    requires Built(l, p, extra, a) && Built(l, p, extra, b)
    ensures a == b
  {
    forall key ensures key in a <==> key in b {
      assert Holds(a, key, Entry(l, p, extra, key)) && Holds(b, key, Entry(l, p, extra, key));
    }
    forall key | key in a ensures a[key] == b[key] {
      assert Holds(a, key, Entry(l, p, extra, key)) && Holds(b, key, Entry(l, p, extra, key));
    }
  }

  predicate SameAt(a: Record, b: Record, key: string)
  {
    (key in a <==> key in b) && (key in a ==> a[key] == b[key])
  }

  method WriteStrings(p: Profile, fields: seq<string>, start: Record) returns (merged: Record)
    requires forall key :: key in fields ==> key in p.strings
    ensures forall key :: key in fields ==> Holds(merged, key, StringEntry(p, key))
    ensures forall key :: key !in fields ==> SameAt(merged, start, key)
  {
    merged := start;
    for i := 0 to |fields|
      invariant forall key :: key in fields[..i] ==> Holds(merged, key, StringEntry(p, key))
      invariant forall key :: key !in fields[..i] ==> SameAt(merged, start, key)
    {
      var key := fields[i];
      assert fields[..i + 1] == fields[..i] + [key];
      var value := Trim(p.strings[key], ScriptSpace);
      if value != "" {
        merged := merged[key := Str(value)];
      } else {
        merged := merged - {key};
      }
    }
  }

  method WriteFlags(p: Profile, fields: seq<string>, start: Record) returns (merged: Record)
    requires forall key :: key in fields ==> key in p.flags
    ensures forall key :: key in fields ==> Holds(merged, key, FlagEntry(p, key))
    ensures forall key :: key !in fields ==> SameAt(merged, start, key)
  {
    merged := start;
    for i := 0 to |fields|
      invariant forall key :: key in fields[..i] ==> Holds(merged, key, FlagEntry(p, key))
      invariant forall key :: key !in fields[..i] ==> SameAt(merged, start, key)
    {
      var key := fields[i];
      assert fields[..i + 1] == fields[..i] + [key];
      if p.flags[key] {
        merged := merged[key := Bool(true)];
      } else {
        merged := merged - {key};
      }
    }
  }

  lemma StepsBuild(l: Layout, p: Profile, extra: Record, first: Record, second: Record, third: Record, merged: Record)
    requires Coherent(l) && first == extra[Mode := p.mode]
    requires forall key :: key in l.strings ==> Holds(second, key, StringEntry(p, key))
    requires forall key :: key !in l.strings ==> SameAt(second, first, key)
    requires forall key :: key in l.flags ==> Holds(third, key, FlagEntry(p, key))
    requires forall key :: key !in l.flags ==> SameAt(third, second, key)
    requires Holds(merged, Nodes, NodesEntry(p))
    requires forall key :: key != Nodes ==> SameAt(merged, third, key)
    ensures Built(l, p, extra, merged)
  {
    forall key ensures Holds(merged, key, Entry(l, p, extra, key)) {
      assert key != Nodes ==> SameAt(merged, third, key);
      assert key !in l.flags ==> SameAt(third, second, key);
      assert key !in l.strings ==> SameAt(second, first, key);
    }
  }

  /** The two loops over the field lists are methods of their own. */
  method BuildCapabilities(l: Layout, p: Profile, extra: Record) returns (merged: Record)
    requires Coherent(l) && WellTyped(l, p)
    ensures Built(l, p, extra, merged)
  {
    var first := extra[Mode := p.mode];
    var second := WriteStrings(p, l.strings, first);
    var third := WriteFlags(p, l.flags, second);
    if Counts(p.nodes) {
      merged := third[Nodes := Num(p.nodes.value)];
    } else {
      merged := third - {Nodes};
    }
    StepsBuild(l, p, extra, first, second, third, merged);
  }

  // ----- Both ways round -----

  /** What is left of a profile after it has been stored and read back. */
  function Normal(p: Profile): Profile
  {
    Profile(Or(p.mode, Str("manual")),
            map key | key in p.strings :: Trim(p.strings[key], ScriptSpace),
            if p.nodes.Some? && p.nodes.value.Finite? && p.nodes.value.amount > 0.0 then p.nodes else None,
            p.flags)
  }

  lemma ReadMode(l: Layout, p: Profile, extra: Record, m: Record)
    requires Coherent(l) && WellTyped(l, p) && Built(l, p, extra, m)
    ensures Or(Get(m, Mode), Str("manual")) == Or(p.mode, Str("manual")) && AsNumber(Get(m, Nodes)) == Normal(p).nodes
  {
    assert Holds(m, Mode, Entry(l, p, extra, Mode)) && Holds(m, Nodes, Entry(l, p, extra, Nodes));
  }

  lemma ReadString(l: Layout, p: Profile, extra: Record, m: Record, key: string)
    requires Coherent(l) && WellTyped(l, p) && Built(l, p, extra, m) && key in l.strings
    ensures AsString(Get(m, key)) == Trim(p.strings[key], ScriptSpace)
  {
    assert Holds(m, key, Entry(l, p, extra, key));
  }

  lemma ReadFlag(l: Layout, p: Profile, extra: Record, m: Record, key: string)
    requires Coherent(l) && WellTyped(l, p) && Built(l, p, extra, m) && key in l.flags
    ensures AsBoolean(Get(m, key)) == p.flags[key]
  {
    assert Holds(m, key, Entry(l, p, extra, key));
  }

  lemma ReadExtra(l: Layout, p: Profile, extra: Record, m: Record)
    requires Coherent(l) && WellTyped(l, p) && Built(l, p, extra, m)
    ensures Unknown(l, m) == Unknown(l, extra)
  {
    forall key | key !in l.known ensures SameAt(m, extra, key) {
      assert Holds(m, key, Entry(l, p, extra, key));
    }
  }

  /** Entries that come back: no known key and not "__proto__". */
  ghost predicate Storable(l: Layout, extra: Record)
  {
    Proto !in extra && forall key :: key in extra ==> key !in l.known
  }

  /** What parsing makes of any stored profile. */
  lemma ParseAfterBuild(l: Layout, p: Profile, extra: Record, m: Record)
    requires Coherent(l) && WellTyped(l, p) && Built(l, p, extra, m)
    ensures Parse(l, m) == Parsed(Normal(p), Unknown(l, extra))
  {
    ReadMode(l, p, extra, m);
    ReadExtra(l, p, extra, m);
    forall key | key in l.strings ensures AsString(Get(m, key)) == Trim(p.strings[key], ScriptSpace) {
      ReadString(l, p, extra, m, key);
    }
    forall key | key in l.flags ensures AsBoolean(Get(m, key)) == p.flags[key] {
      ReadFlag(l, p, extra, m, key);
    }
    assert ParseProfile(l, m).strings == Normal(p).strings;
    assert ParseProfile(l, m).flags == Normal(p).flags;
  }

  /** A set mode, trimmed strings and no node count or a positive finite one. */
  ghost predicate Tidy(p: Profile)
  {
    !p.mode.Undefined? && !p.mode.Null? &&
    (forall key :: key in p.strings ==> Trimmed(p.strings[key], ScriptSpace)) &&
    (p.nodes.None? || (p.nodes.value.Finite? && p.nodes.value.amount > 0.0))
  }

  lemma NormalKeepsTidy(p: Profile)
    ensures Normal(p) == p <==> Tidy(p)
  {
  }

  /** Main result: storing and reading back returns exactly the profile and the extra entries if and
      only if the profile is tidy and no extra entry has a known key or the key "__proto__". */
  lemma ProfileRoundTrip(p: Profile, extra: Record, m: Record)
    requires WellTyped(Form, p) && Built(Form, p, extra, m)
    ensures Parse(Form, m) == Parsed(p, extra) <==> Tidy(p) && Storable(Form, extra)
  {
    FormIsCoherent();
    RoundTripIn(Form, p, extra, m);
  }

  lemma RoundTripIn(l: Layout, p: Profile, extra: Record, m: Record)
    requires Coherent(l) && WellTyped(l, p) && Built(l, p, extra, m)
    ensures Parse(l, m) == Parsed(p, extra) <==> Tidy(p) && Storable(l, extra)
  {
    ParseAfterBuild(l, p, extra, m);
    NormalKeepsTidy(p);
    assert Storable(l, extra) ==> Unknown(l, extra) == extra;
    assert Unknown(l, extra) == extra ==> forall key :: key in extra ==> key in Unknown(l, extra);
  }

  /** An extra entry {"__proto__": value}, which JSON.parse makes an entry like any other, is stored but
      does not come back. */
  lemma ProtoEntryIsLost(p: Profile, value: Value, m: Record)
    requires WellTyped(Form, p) && Built(Form, p, map[Proto := value], m)
    ensures Proto in m && m[Proto] == value && Parse(Form, m).extra == map[]
  {
    FormIsCoherent();
    ParseAfterBuild(Form, p, map[Proto := value], m);
    assert Holds(m, Proto, Entry(Form, p, map[Proto := value], Proto));
  }

  /** A record as the form stores it. */
  ghost predicate Canonical(l: Layout, m: Record)
  {
    Mode in m && !m[Mode].Undefined? && !m[Mode].Null? && Proto !in m &&
    (forall key :: key in l.strings && key in m ==>
      m[key].Str? && m[key].text != "" && Trimmed(m[key].text, ScriptSpace)) &&
    (forall key :: key in l.flags && key in m ==> m[key] == Bool(true)) &&
    (Nodes in m ==> m[Nodes].Num? && m[Nodes].number.Finite? && m[Nodes].number.amount > 0.0)
  }

  /** Opening and saving the form leaves a stored record as it is if and only if it is canonical. */
  lemma {:induction false} SavingChangesNothing(l: Layout, m: Record)
    requires Coherent(l)
    ensures Built(l, ParseProfile(l, m), Unknown(l, m), m) <==> Canonical(l, m)
  {
    var p, extra := ParseProfile(l, m), Unknown(l, m);
    if Canonical(l, m) {
      forall key ensures Holds(m, key, Entry(l, p, extra, key)) {
        if key in l.strings && key in m {
          assert p.strings[key] == m[key].text;
        }
      }
    }
    if Built(l, p, extra, m) {
      assert Holds(m, Mode, Entry(l, p, extra, Mode)) && Holds(m, Nodes, Entry(l, p, extra, Nodes));
      assert Holds(m, Proto, Entry(l, p, extra, Proto));
      forall key | (key in l.strings || key in l.flags) && key in m
        ensures key in l.strings ==> m[key].Str? && m[key].text != "" && Trimmed(m[key].text, ScriptSpace)
        ensures key in l.flags ==> m[key] == Bool(true)
      {
        assert Holds(m, key, Entry(l, p, extra, key));
      }
    }
  }

  /** A second save changes nothing exactly when the mode is set, the node count is not infinite and no
      extra entry is called "__proto__": everything else the form stores is canonical. */
  lemma SavedOnceIsStable(l: Layout, p: Profile, extra: Record, m: Record)
    requires Coherent(l) && WellTyped(l, p) && Built(l, p, extra, m)
    ensures Built(l, ParseProfile(l, m), Unknown(l, m), m) <==>
      !p.mode.Undefined? && !p.mode.Null? && p.nodes != Some(PlusInfinity) && Proto !in extra
  {
    assert Holds(m, Mode, Entry(l, p, extra, Mode)) && Holds(m, Nodes, Entry(l, p, extra, Nodes));
    assert Holds(m, Proto, Entry(l, p, extra, Proto));
    forall key | key in l.strings && key in m
      ensures m[key].Str? && m[key].text != "" && Trimmed(m[key].text, ScriptSpace)
    {
      assert Holds(m, key, Entry(l, p, extra, key));
    }
    forall key | key in l.flags && key in m ensures m[key] == Bool(true) {
      assert Holds(m, key, Entry(l, p, extra, key));
    }
    SavingChangesNothing(l, m);
  }

  // ----- Reading numbers -----

  function DigitChar(d: nat): char
    requires d < 10
  {
    (d + '0' as int) as char
  }

  /** The decimal text of a number. */
  function Decimal(n: nat): (s: string)
    ensures s != "" && forall c :: c in s ==> Digit(c)
  {
    if n < 10 then [DigitChar(n)] else Decimal(n / 10) + [DigitChar(n % 10)]
  }

  /** The value of a text of digits. */
  function Value10(s: string): nat
    requires forall c :: c in s ==> Digit(c)
  {
    if s == "" then 0
    else
      var last := s[|s| - 1];
      assert last in s && Digit(last) && forall c :: c in s[..|s| - 1] ==> c in s;
      Value10(s[..|s| - 1]) * 10 + (last as int - '0' as int)
  }

  lemma {:induction false} DecimalHasValue(n: nat)
    ensures Value10(Decimal(n)) == n
  {
    if n >= 10 {
      DecimalHasValue(n / 10);
      assert Decimal(n)[..|Decimal(n)| - 1] == Decimal(n / 10);
    }
  }

  lemma {:induction false} DigitsInFront(ds: string, rest: string, k: nat)
    requires (forall c :: c in ds ==> Digit(c)) && (rest == "" || !Digit(rest[0]))
    ensures CountDigits(ds + rest) == |ds|
    ensures k < |ds| ==> DigitAt(ds + rest, k) == ds[k] as int - '0' as int
  {
    if ds == "" {
      assert ds + rest == rest;
    } else {
      assert ds[0] in ds && (ds + rest)[0] == ds[0] && (ds + rest)[1..] == ds[1..] + rest;
      DigitsInFront(ds[1..], rest, if k > 0 then k - 1 else 0);
    }
  }

  lemma {:induction false} DigitsGiveValue(ds: string, rest: string, n: nat)
    requires (forall c :: c in ds ==> Digit(c)) && (rest == "" || !Digit(rest[0])) && n <= |ds|
    ensures CountDigits(ds + rest) == |ds| && Digits(ds + rest, n) == Value10(ds[..n])
  {
    DigitsInFront(ds, rest, 0);
    if n > 0 {
      DigitsInFront(ds, rest, n - 1);
      DigitsGiveValue(ds, rest, n - 1);
      assert ds[..n][..n - 1] == ds[..n - 1] && ds[..n][n - 1] == ds[n - 1];
    }
  }

  lemma {:induction false} UnsignedReadsBack(n: nat, rest: string)
    requires rest == "" || (!Digit(rest[0]) && !ScriptSpace(rest[|rest| - 1]))
    ensures ParseInt(Decimal(n) + rest) == Finite(n as real)
    ensures Trimmed(Decimal(n) + rest, ScriptSpace) && Digit((Decimal(n) + rest)[0])
  {
    var ds := Decimal(n);
    var s := ds + rest;
    DecimalHasValue(n);
    DigitsGiveValue(ds, rest, |ds|);
    assert ds[..|ds|] == ds && ds[0] in ds && ds[|ds| - 1] in ds;
    assert s[0] == ds[0] && s[|s| - 1] == if rest == "" then ds[|ds| - 1] else rest[|rest| - 1];
    assert Trimmed(s, ScriptSpace);
    assert Trim(s, ScriptSpace) == s;
  }

  /** A number written in decimal reads back, with any sign, whatever follows it but another digit. */
  lemma {:induction false} IntegersReadBack(n: nat, rest: string)
    requires rest == "" || (!Digit(rest[0]) && !ScriptSpace(rest[|rest| - 1]))
    ensures ParseInt(Decimal(n) + rest) == Finite(n as real)
    ensures ParseInt("-" + (Decimal(n) + rest)) == Finite(-(n as real))
    ensures ParseInt("+" + (Decimal(n) + rest)) == Finite(n as real)
  {
    UnsignedReadsBack(n, rest);
    SignedReadsBack('-', Decimal(n) + rest);
    SignedReadsBack('+', Decimal(n) + rest);
  }

  /** A text that begins with a letter is not a number. */
  lemma LettersAreNoNumber(s: string)
    requires s != "" && 'a' <= s[0] <= 'z' && !ScriptSpace(s[|s| - 1])
    ensures ParseInt(s) == NotANumber
  {
    assert Trimmed(s, ScriptSpace);
  }

  lemma SignedReadsBack(sign: char, s: string)
    requires sign in "+-" && s != "" && Digit(s[0]) && Trimmed(s, ScriptSpace)
    ensures ParseInt(s).Finite? ==>
      ParseInt([sign] + s) == Finite(if sign == '-' then -ParseInt(s).amount else ParseInt(s).amount)
  {
    assert Trimmed([sign] + s, ScriptSpace) && ([sign] + s)[1..] == s;
  }

  /** A new environment: no capability is declared, the mode is manual. */
  lemma EmptyRecord()
    ensures var p := ParseProfile(Form, map[]);
      p.mode == Str("manual") && p.nodes == None &&
      (forall key :: key in p.strings ==> p.strings[key] == "") && forall key :: key in p.flags ==> !p.flags[key]
  {
  }

  /** What stored values of the wrong type read as: only True sets a flag, only texts fill a text field, and
      a node count may be a finite number or a text that begins with one. */
  lemma WrongTypesReadAsNothing(source: Record, key: string, nodes: string)
    requires Coherent(Form) && key in source
    ensures key in Form.flags ==> (ParseProfile(Form, source).flags[key] <==> source[key] == Bool(true))
    ensures key in Form.strings ==>
      ParseProfile(Form, source).strings[key] == match source[key] case Str(text) => text case _ => ""
    ensures key == "receptor_node_count" ==>
      match source[key]
      case Num(Finite(x)) => ParseProfile(Form, source).nodes == Some(Finite(x))
      case Str(_) => true
      case _ => ParseProfile(Form, source).nodes == None
  {
  }
}
