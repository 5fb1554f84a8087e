/** The execution protocol's wire codec: a checked-in schema, structural matching through named definitions,
    and the canonical bounded frame. Decoding and encoding undo each other exactly. */
module Protocol {
  import opened Effects
  import opened Json

  const VERSION: nat := 1
  const MAX_FRAME_BYTES: nat := 65536
  const MAX_JSON_INTEGER: nat := 4294967295

  datatype Format = Opaque(maxBytes: nat) | Sha256 | GitRevision | Uint64 | Generation

  /** A definition of the schema. */
  datatype Def =
    | Name(name: string)
    | Constant(value: Value)
    | StringOf(format: Format)
    | Enumeration(choices: seq<string>)
    | Fields(fields: seq<(string, Def)>)
    | Variants(tag: string, variants: seq<(string, Def)>)
    | ListOf(item: Def, maxItems: nat, unique: bool)

  datatype Error = InvalidFrame | IncompatibleVersion

  datatype Result<+T> = Ok(value: T) | Err(error: Error)

  const BOOLEAN: string := "bool"
  const ROOT: Def := Name("Message")

  // The named definitions.

  const ID: Def := StringOf(Opaque(256))
  const DIGEST: Def := StringOf(Sha256)
  const REVISION: Def := StringOf(GitRevision)
  const COUNTER: Def := StringOf(Uint64)
  const GENERATION: Def := StringOf(Generation)
  const PROFILE: Def := Enumeration(
    ["linux-untrusted-review", "linux-managed-paperclip", "macos-managed-paperclip", "macos-untrusted-review"])
  const CAPABILITY: Def := Enumeration(
    ["authenticated-ipc", "durable-intents", "zero-effect-reopen", "descendant-cleanup", "retained-delivery",
     "live-observation", "persisted-reconciliation"])
  const EXECUTION_STATE: Def := Enumeration(["prepared", "starting", "unknown", "running", "retained", "closed"])
  const ERROR_CODE: Def := Enumeration(
    ["invalid-frame", "incompatible-version", "unsupported-profile", "unsupported-capability", "authority-denied",
     "custody-lost", "budget-exhausted", "transport-failed", "effect-unknown"])
  const IMPLEMENTATION: Def := Fields(
    [("engineRevision", Name("Revision")), ("engineDigest", Name("Digest")), ("bridgeDigest", Name("Digest")),
     ("schemaDigest", Name("Digest")), ("configurationDigest", Name("Digest")),
     ("credentialReferenceDigest", Name("Digest"))])
  const BINDING: Def := Fields(
    [("callerAuthority", Name("Id")), ("callerNamespace", Name("Id")), ("intentId", Name("Id")), ("executionId", Name("Id")),
     ("executionGeneration", Name("Generation")), ("inputDigest", Name("Digest")), ("policyDigest", Name("Digest")),
     ("implementationDigest", Name("Digest"))])
  const DESCRIBE: Def := Fields([("expectedImplementation", Name("Implementation")), ("requiredProfile", Name("Profile"))])
  const CAPABILITIES: Def := Fields(
    [("implementation", Name("Implementation")), ("profiles", ListOf(Name("Profile"), 4, true)),
     ("capabilities", ListOf(Name("Capability"), 7, true))])
  const OBSERVATION: Def := Fields(
    [("binding", Name("Binding")), ("handle", Name("Id")), ("state", Name("ExecutionState")), ("sequence", Name("Counter")),
     ("gap", Name(BOOLEAN))])
  const OUTPUT_RECEIPT: Def := Fields(
    [("binding", Name("Binding")), ("outputDigest", Name("Digest")), ("outputBytes", Name("Counter"))])
  const FAILURE: Def := Fields([("code", Name("ErrorCode"))])
  const BODY: Def := Variants(
    "kind",
    [("describe", Name("Describe")), ("capabilities", Name("Capabilities")), ("observation", Name("Observation")),
     ("output-receipt", Name("OutputReceipt")), ("error", Name("Failure"))])
  const MESSAGE: Def := Fields(
    [("schemaVersion", Constant(Natural(1))), ("requestId", Name("Id")), ("body", Name("Body"))])

  const DEFINITIONS: seq<(string, Def)> := [
    ("Id", ID), ("Digest", DIGEST), ("Revision", REVISION), ("Counter", COUNTER),
    ("Generation", GENERATION), ("Profile", PROFILE), ("Capability", CAPABILITY), ("ExecutionState", EXECUTION_STATE),
    ("ErrorCode", ERROR_CODE), ("Implementation", IMPLEMENTATION), ("Binding", BINDING), ("Describe", DESCRIBE),
    ("Capabilities", CAPABILITIES), ("Observation", OBSERVATION), ("OutputReceipt", OUTPUT_RECEIPT), ("Failure", FAILURE),
    ("Body", BODY), ("Message", MESSAGE)
  ]

  /** The index of a definition, if there is one. */
  function Find<T>(table: seq<(string, T)>, name: string): (r: Option<nat>)
    ensures r.Some? ==> r.value < |table| && table[r.value].0 == name
    ensures r.None? ==> forall i :: 0 <= i < |table| ==> table[i].0 != name
  {
    if table == [] then None
    else if table[0].0 == name then Some(0)
    else
      var rest := Find(table[1..], name);
      if rest.None? then None else Some(rest.value + 1)
  }

  // ---------- termination ----------

  /** How deep each definition nests; a definition mentions only names of smaller rank. */
  const RANKS: seq<nat> := [0, 0, 0, 0, 0, 0, 0, 0, 0, 1, 1, 2, 2, 2, 2, 1, 3, 4]

  /** `rank` bounds the nesting of the definition and everything it names. */
  predicate Layered(table: seq<(string, Def)>, ranks: seq<nat>, d: Def, rank: nat)
    requires |ranks| == |table|
    decreases d
  {
    match d
    case Name(name) => var i := Find(table, name); i.Some? ==> ranks[i.value] <= rank
    case Fields(fields) => rank > 0 && forall i | 0 <= i < |fields| :: Layered(table, ranks, fields[i].1, rank - 1)
    case Variants(_, variants) => rank > 0 && forall i | 0 <= i < |variants| :: Layered(table, ranks, variants[i].1, rank - 1)
    case ListOf(item, _, _) => rank > 0 && Layered(table, ranks, item, rank - 1)
    case _ => true
  }

  /** No definition is only another name, none is named like the built-in, and all are layered; constants are small. */
  ghost predicate SchemaOk(table: seq<(string, Def)>, ranks: seq<nat>) {
    && |ranks| == |table|
    && forall i :: 0 <= i < |table| ==> !table[i].1.Name? && Layered(table, ranks, table[i].1, ranks[i]) && Plain(table[i].1)
  }

  /** Constants are canonical numbers. */
  predicate Plain(d: Def)
    decreases d
  {
    match d
    case Constant(v) => v.Natural? && v.n <= MAX_JSON_INTEGER
    case Fields(fields) => forall i | 0 <= i < |fields| :: Plain(fields[i].1)
    case Variants(_, variants) => forall i | 0 <= i < |variants| :: Plain(variants[i].1)
    case ListOf(item, _, _) => Plain(item)
    case _ => true
  }

  // ---------- strings ----------

  function Utf8Length(c: char): nat {
    var n := c as int;
    if n < 0x80 then 1 else if n < 0x800 then 2 else if n < 0x10000 then 3 else 4
  }

  function ByteLength(s: string): nat { if s == "" then 0 else Utf8Length(s[0]) + ByteLength(s[1..]) }

  predicate Control(c: char) { c < ' ' || 0x7f <= c as int <= 0x9f }

  predicate LowerHex(c: char) { '0' <= c <= '9' || 'a' <= c <= 'f' }

  predicate AllDigits(s: string) { forall c | c in s :: IsDigit(c) }

  /** The decimal form of a 64-bit natural. */
  predicate Decimal(s: string) {
    && s != "" && AllDigits(s) && (s == "0" || s[0] != '0') && ValueOf(s) <= U64_MAX
  }

  predicate FormatOk(s: string, f: Format) {
    match f
    case Opaque(maxBytes) => s != "" && ByteLength(s) <= maxBytes && forall c | c in s :: !Control(c)
    case Sha256 => |s| == 64 && forall c | c in s :: LowerHex(c)
    case GitRevision => |s| == 40 && forall c | c in s :: LowerHex(c)
    case Uint64 => Decimal(s)
    case Generation => Decimal(s) && ValueOf(s) > 0
  }

  // ---------- matching ----------

  /** The keys of a definition's fields. */
  function FieldNames(fields: seq<(string, Def)>): set<string> { set i | 0 <= i < |fields| :: fields[i].0 }

  predicate NoRepeats(items: seq<Value>) { forall i, j | 0 <= i < j < |items| :: items[i] != items[j] }

  /** Structural matching; the rank bounds what names may still be followed. */
  predicate Matches(table: seq<(string, Def)>, ranks: seq<nat>, v: Value, d: Def, rank: nat)
    requires SchemaOk(table, ranks) && Layered(table, ranks, d, rank)
    decreases rank, if d.Name? then 1 else 0
  {
    match d
    case Name(name) =>
      if name == BOOLEAN then v.Bool?
      else
        var i := Find(table, name);
        i.Some? && Matches(table, ranks, v, table[i.value].1, ranks[i.value])
    case Constant(c) => v == c
    case StringOf(f) => v.Text? && FormatOk(v.s, f)
    case Enumeration(choices) => v.Text? && v.s in choices
    case Fields(fields) =>
      && v.Object? && |v.fields| == |FieldNames(fields)|
      && forall i | 0 <= i < |fields| ::
           fields[i].0 in v.fields && Matches(table, ranks, v.fields[fields[i].0], fields[i].1, rank - 1)
    case Variants(tag, variants) =>
      && v.Object? && tag in v.fields && v.fields[tag].Text?
      && var i := Find(variants, v.fields[tag].s);
         i.Some? && Matches(table, ranks, Object(v.fields - {tag}), variants[i.value].1, rank - 1)
    case ListOf(item, maxItems, unique) =>
      && v.List? && |v.items| <= maxItems && (unique ==> NoRepeats(v.items))
      && forall i | 0 <= i < |v.items| :: Matches(table, ranks, v.items[i], item, rank - 1)
  }

  // ---------- the checked-in schema is well formed ----------

  /** Length and first letter tell the names apart. */
  const MARKS: seq<(nat, char)> := [
    (2, 'I'), (6, 'D'), (8, 'R'), (7, 'C'), (10, 'G'), (7, 'P'), (10, 'C'), (14, 'E'), (9, 'E'),
    (14, 'I'), (7, 'B'), (8, 'D'), (12, 'C'), (11, 'O'), (13, 'O'), (7, 'F'), (4, 'B'), (7, 'M')
  ]

  lemma Marked(i: nat)
    requires i < |DEFINITIONS|
    ensures |DEFINITIONS| == |MARKS| == |RANKS|
    ensures |DEFINITIONS[i].0| == MARKS[i].0 && DEFINITIONS[i].0[0] == MARKS[i].1
  {
  }

  lemma MarksDiffer(i: nat, j: nat)
    requires i < j < |MARKS|
    ensures MARKS[i] != MARKS[j]
  {
  }

  lemma {:induction false} FindFirst<T>(table: seq<(string, T)>, k: nat)
    requires k < |table| && forall j :: 0 <= j < k ==> table[j].0 != table[k].0
    ensures Find(table, table[k].0) == Some(k)
  {
    if k > 0 {
      assert table[0].0 != table[k].0;
      FindFirst(table[1..], k - 1);
    }
  }

  lemma Found(k: nat)
    requires k < |DEFINITIONS|
    ensures Find(DEFINITIONS, DEFINITIONS[k].0) == Some(k)
  {
    forall j | 0 <= j < k ensures DEFINITIONS[j].0 != DEFINITIONS[k].0 {
      Marked(j);
      Marked(k);
      MarksDiffer(j, k);
      hide DEFINITIONS, MARKS;
    }
    hide DEFINITIONS;
    FindFirst(DEFINITIONS, k);
  }

  lemma Sizes()
    ensures |RANKS| == |DEFINITIONS| == 18
    ensures DEFINITIONS[0] == ("Id", ID) && RANKS[0] == 0
    ensures DEFINITIONS[1] == ("Digest", DIGEST) && RANKS[1] == 0
    ensures DEFINITIONS[2] == ("Revision", REVISION) && RANKS[2] == 0
    ensures DEFINITIONS[3] == ("Counter", COUNTER) && RANKS[3] == 0
    ensures DEFINITIONS[4] == ("Generation", GENERATION) && RANKS[4] == 0
    ensures DEFINITIONS[5] == ("Profile", PROFILE) && RANKS[5] == 0
    ensures DEFINITIONS[6] == ("Capability", CAPABILITY) && RANKS[6] == 0
    ensures DEFINITIONS[7] == ("ExecutionState", EXECUTION_STATE) && RANKS[7] == 0
    ensures DEFINITIONS[8] == ("ErrorCode", ERROR_CODE) && RANKS[8] == 0
    ensures DEFINITIONS[9] == ("Implementation", IMPLEMENTATION) && RANKS[9] == 1
    ensures DEFINITIONS[10] == ("Binding", BINDING) && RANKS[10] == 1
    ensures DEFINITIONS[11] == ("Describe", DESCRIBE) && RANKS[11] == 2
    ensures DEFINITIONS[12] == ("Capabilities", CAPABILITIES) && RANKS[12] == 2
    ensures DEFINITIONS[13] == ("Observation", OBSERVATION) && RANKS[13] == 2
    ensures DEFINITIONS[14] == ("OutputReceipt", OUTPUT_RECEIPT) && RANKS[14] == 2
    ensures DEFINITIONS[15] == ("Failure", FAILURE) && RANKS[15] == 1
    ensures DEFINITIONS[16] == ("Body", BODY) && RANKS[16] == 3
    ensures DEFINITIONS[17] == ("Message", MESSAGE) && RANKS[17] == 4
  {
  }

  lemma NameLayered(name: string, k: nat, rank: nat)
    requires |RANKS| == |DEFINITIONS| && k < |DEFINITIONS| && DEFINITIONS[k].0 == name && RANKS[k] <= rank
    ensures Layered(DEFINITIONS, RANKS, Name(name), rank)
  {
    hide DEFINITIONS, RANKS, Find;
    Found(k);
  }

  lemma BooleanLayered(rank: nat)
    requires |RANKS| == |DEFINITIONS|
    ensures Layered(DEFINITIONS, RANKS, Name(BOOLEAN), rank)
  {
    hide Find;
    var i := Find(DEFINITIONS, BOOLEAN);
    if i.Some? { BooleanIsNoMark(i.value); }
  }

  lemma BooleanIsNoMark(i: nat)
    requires i < |DEFINITIONS|
    ensures DEFINITIONS[i].0 != BOOLEAN
  {
    Marked(i);
    hide DEFINITIONS;
  }

  lemma ImplementationLayered()
    ensures |RANKS| == |DEFINITIONS| && Layered(DEFINITIONS, RANKS, IMPLEMENTATION, 1) && Plain(IMPLEMENTATION)
  {
    hide DEFINITIONS, RANKS, Find;
    Sizes();
    NameLayered("Revision", 2, 0);
    NameLayered("Digest", 1, 0);
  }

  lemma BindingLayered()
    ensures |RANKS| == |DEFINITIONS| && Layered(DEFINITIONS, RANKS, BINDING, 1) && Plain(BINDING)
  {
    hide DEFINITIONS, RANKS, Find;
    Sizes();
    NameLayered("Id", 0, 0);
    NameLayered("Generation", 4, 0);
    NameLayered("Digest", 1, 0);
  }

  lemma DescribeLayered()
    ensures |RANKS| == |DEFINITIONS| && Layered(DEFINITIONS, RANKS, DESCRIBE, 2) && Plain(DESCRIBE)
  {
    hide DEFINITIONS, RANKS, Find;
    Sizes();
    NameLayered("Implementation", 9, 1);
    NameLayered("Profile", 5, 1);
  }

  lemma CapabilitiesLayered()
    ensures |RANKS| == |DEFINITIONS| && Layered(DEFINITIONS, RANKS, CAPABILITIES, 2) && Plain(CAPABILITIES)
  {
    hide DEFINITIONS, RANKS, Find;
    Sizes();
    NameLayered("Implementation", 9, 1);
    NameLayered("Profile", 5, 0);
    NameLayered("Capability", 6, 0);
  }

  lemma ObservationLayered()
    ensures |RANKS| == |DEFINITIONS| && Layered(DEFINITIONS, RANKS, OBSERVATION, 2) && Plain(OBSERVATION)
  {
    hide DEFINITIONS, RANKS, Find;
    Sizes();
    NameLayered("Binding", 10, 1);
    NameLayered("Id", 0, 1);
    NameLayered("ExecutionState", 7, 1);
    NameLayered("Counter", 3, 1);
    BooleanLayered(1);
  }

  lemma OutputReceiptLayered()
    ensures |RANKS| == |DEFINITIONS| && Layered(DEFINITIONS, RANKS, OUTPUT_RECEIPT, 2) && Plain(OUTPUT_RECEIPT)
  {
    hide DEFINITIONS, RANKS, Find;
    Sizes();
    NameLayered("Binding", 10, 1);
    NameLayered("Digest", 1, 1);
    NameLayered("Counter", 3, 1);
  }

  lemma FailureLayered()
    ensures |RANKS| == |DEFINITIONS| && Layered(DEFINITIONS, RANKS, FAILURE, 1) && Plain(FAILURE)
  {
    hide DEFINITIONS, RANKS, Find;
    Sizes();
    NameLayered("ErrorCode", 8, 0);
  }

  lemma BodyLayered()
    ensures |RANKS| == |DEFINITIONS| && Layered(DEFINITIONS, RANKS, BODY, 3) && Plain(BODY)
  {
    hide DEFINITIONS, RANKS, Find;
    Sizes();
    NameLayered("Describe", 11, 2);
    NameLayered("Capabilities", 12, 2);
    NameLayered("Observation", 13, 2);
    NameLayered("OutputReceipt", 14, 2);
    NameLayered("Failure", 15, 2);
  }

  lemma MessageLayered()
    ensures |RANKS| == |DEFINITIONS| && Layered(DEFINITIONS, RANKS, MESSAGE, 4) && Plain(MESSAGE)
  {
    hide DEFINITIONS, RANKS, Find;
    Sizes();
    NameLayered("Id", 0, 3);
    NameLayered("Body", 16, 3);
  }

  lemma RowOk(i: nat)
    requires i < |DEFINITIONS| == |RANKS|
    ensures var d := DEFINITIONS[i].1; !d.Name? && Layered(DEFINITIONS, RANKS, d, RANKS[i]) && Plain(d)
  {
    hide DEFINITIONS, RANKS, Layered, Plain;
    Sizes();
    if i >= 9 { CompositeRowOk(i); } else { LeafLayered(DEFINITIONS[i].1, RANKS[i]); }
  }

  lemma CompositeRowOk(i: nat)
    requires 9 <= i < |DEFINITIONS| == |RANKS|
    ensures var d := DEFINITIONS[i].1; !d.Name? && Layered(DEFINITIONS, RANKS, d, RANKS[i]) && Plain(d)
  {
    hide DEFINITIONS, RANKS, Layered, Plain;
    Sizes();
    ImplementationLayered();
    BindingLayered();
    DescribeLayered();
    CapabilitiesLayered();
    ObservationLayered();
    OutputReceiptLayered();
    FailureLayered();
    BodyLayered();
    MessageLayered();
  }

  lemma LeafLayered(d: Def, rank: nat)
    requires |RANKS| == |DEFINITIONS| && (d.StringOf? || d.Enumeration?)
    ensures Layered(DEFINITIONS, RANKS, d, rank) && Plain(d)
  {
    hide DEFINITIONS, RANKS, Find;
    if d.StringOf? {
      assert Plain(d) && Layered(DEFINITIONS, RANKS, d, rank);
    } else {
      assert Plain(d) && Layered(DEFINITIONS, RANKS, d, rank);
    }
  }

  /** The schema's names form layers, so matching through them terminates. */
  lemma SchemaIsOk()
    ensures SchemaOk(DEFINITIONS, RANKS) && Layered(DEFINITIONS, RANKS, ROOT, 4)
  {
    Sizes();
    NameLayered("Message", 17, 4);
    hide DEFINITIONS, RANKS, Layered, Plain;
    forall i | 0 <= i < |DEFINITIONS|
      ensures !DEFINITIONS[i].1.Name? && Layered(DEFINITIONS, RANKS, DEFINITIONS[i].1, RANKS[i]) && Plain(DEFINITIONS[i].1)
    {
      RowOk(i);
    }
  }

  // ---------- the codec ----------

  predicate CanonicalNumbers(v: Value)
    decreases v
  {
    match v
    case Natural(n) => n <= MAX_JSON_INTEGER
    case OtherNumber(_) => false
    case List(items) => forall i | 0 <= i < |items| :: CanonicalNumbers(items[i])
    case Object(fields) => forall k | k in fields :: CanonicalNumbers(fields[k])
    case _ => true
  }

  const VERSION_FIELD: string := "schemaVersion"

  /** The error of a value that is no message. */
  function Validate(v: Value): Option<Error> {
    if !(v.Object? && VERSION_FIELD in v.fields && v.fields[VERSION_FIELD] == Natural(VERSION)) then Some(IncompatibleVersion)
    else
      SchemaIsOk();
      if Matches(DEFINITIONS, RANKS, v, ROOT, 4) then None else Some(InvalidFrame)
  }

  /** Accept a bounded frame only if it is the canonical text of a message. */
  function Decode(frame: string): Result<Value> {
    if ByteLength(frame) > MAX_FRAME_BYTES then Err(InvalidFrame)
    else
      var v := Parse(frame);
      if v.None? || !CanonicalNumbers(v.value) || Print(v.value) != frame then Err(InvalidFrame)
      else
        var error := Validate(v.value);
        if error.Some? then Err(error.value) else Ok(v.value)
  }

  function Encode(v: Value): Result<string> {
    var error := Validate(v);
    if error.Some? then Err(error.value)
    else
      var frame := Print(v);
      if ByteLength(frame) > MAX_FRAME_BYTES then Err(InvalidFrame) else Ok(frame)
  }

  lemma {:induction false} PrintableDeeper(v: Value, depth: nat, more: nat)
    requires Printable(v, depth) && depth <= more
    ensures Printable(v, more)
    decreases v
  {
    match v
    case List(items) =>
      forall i | 0 <= i < |items| ensures Printable(items[i], more - 1) { PrintableDeeper(items[i], depth - 1, more - 1); }
    case Object(fields) =>
      forall k | k in fields ensures Printable(fields[k], more - 1) { PrintableDeeper(fields[k], depth - 1, more - 1); }
    case _ =>
  }

  /** One step of matching a record. */
  lemma FieldsStep(table: seq<(string, Def)>, ranks: seq<nat>, v: Value, d: Def, rank: nat, i: nat)
    requires SchemaOk(table, ranks) && Layered(table, ranks, d, rank) && Plain(d) && Matches(table, ranks, v, d, rank)
    requires d.Fields? && i < |d.fields|
    ensures rank > 0 && v.Object? && |v.fields| == |FieldNames(d.fields)| && d.fields[i].0 in v.fields
    ensures Layered(table, ranks, d.fields[i].1, rank - 1) && Plain(d.fields[i].1)
    ensures Matches(table, ranks, v.fields[d.fields[i].0], d.fields[i].1, rank - 1)
  {
    hide FormatOk, SchemaOk;
  }

  lemma NamedStep(table: seq<(string, Def)>, ranks: seq<nat>, v: Value, d: Def, rank: nat) returns (i: nat)
    requires SchemaOk(table, ranks) && Layered(table, ranks, d, rank) && Matches(table, ranks, v, d, rank)
    requires d.Name? && d.name != BOOLEAN
    ensures i < |table| == |ranks| && ranks[i] <= rank && !table[i].1.Name? && Plain(table[i].1)
    ensures Layered(table, ranks, table[i].1, ranks[i]) && Matches(table, ranks, v, table[i].1, ranks[i])
  {
    hide FormatOk, SchemaOk;
    i := Find(table, d.name).value;
    RowIsOk(table, ranks, i);
  }

  lemma VariantStep(table: seq<(string, Def)>, ranks: seq<nat>, v: Value, d: Def, rank: nat) returns (i: nat)
    requires SchemaOk(table, ranks) && Layered(table, ranks, d, rank) && Plain(d) && Matches(table, ranks, v, d, rank) && d.Variants?
    ensures rank > 0 && v.Object? && d.tag in v.fields && v.fields[d.tag].Text? && i < |d.variants|
    ensures Layered(table, ranks, d.variants[i].1, rank - 1) && Plain(d.variants[i].1)
    ensures Matches(table, ranks, Object(v.fields - {d.tag}), d.variants[i].1, rank - 1)
  {
    hide FormatOk, SchemaOk;
    i := Find(d.variants, v.fields[d.tag].s).value;
  }

  lemma ItemStep(table: seq<(string, Def)>, ranks: seq<nat>, v: Value, d: Def, rank: nat)
    requires SchemaOk(table, ranks) && Layered(table, ranks, d, rank) && Plain(d) && Matches(table, ranks, v, d, rank) && d.ListOf?
    ensures rank > 0 && v.List? && Layered(table, ranks, d.item, rank - 1) && Plain(d.item)
    ensures forall i :: 0 <= i < |v.items| ==> Matches(table, ranks, v.items[i], d.item, rank - 1)
  {
    hide FormatOk, SchemaOk;
  }

  lemma ScalarStep(table: seq<(string, Def)>, ranks: seq<nat>, v: Value, d: Def, rank: nat)
    requires SchemaOk(table, ranks) && Layered(table, ranks, d, rank) && Plain(d) && Matches(table, ranks, v, d, rank)
    requires d.Constant? || d.StringOf? || d.Enumeration? || d == Name(BOOLEAN)
    ensures Printable(v, rank + 1) && CanonicalNumbers(v)
  {
    hide FormatOk, SchemaOk;
  }

  /** What matches a schema has canonical numbers and nests no deeper than its rank. */
  lemma {:induction false} MatchedIsPrintable(table: seq<(string, Def)>, ranks: seq<nat>, v: Value, d: Def, rank: nat)
    requires SchemaOk(table, ranks) && Layered(table, ranks, d, rank) && Plain(d) && Matches(table, ranks, v, d, rank)
    ensures Printable(v, rank + 1) && CanonicalNumbers(v)
    decreases rank, if d.Name? then 1 else 0, 1
  {
    hide FormatOk, SchemaOk, Layered, Plain, Matches, BOOLEAN;
    if d.Name? && d.name != BOOLEAN {
      var i := NamedStep(table, ranks, v, d, rank);
      MatchedIsPrintable(table, ranks, v, table[i].1, ranks[i]);
      PrintableDeeper(v, ranks[i] + 1, rank + 1);
    } else if d.Fields? {
      FieldsArePrintable(table, ranks, v, d, rank);
    } else if d.Variants? {
      var i := VariantStep(table, ranks, v, d, rank);
      var rest := v.fields - {d.tag};
      MatchedIsPrintable(table, ranks, Object(rest), d.variants[i].1, rank - 1);
      forall k | k in v.fields ensures Printable(v.fields[k], rank) && CanonicalNumbers(v.fields[k]) {
        if k != d.tag {
          assert rest[k] == v.fields[k];
          PrintableDeeper(rest[k], rank - 1, rank);
        }
      }
    } else if d.ListOf? {
      ItemStep(table, ranks, v, d, rank);
      forall i | 0 <= i < |v.items| ensures Printable(v.items[i], rank) && CanonicalNumbers(v.items[i]) {
        MatchedIsPrintable(table, ranks, v.items[i], d.item, rank - 1);
      }
    } else {
      ScalarStep(table, ranks, v, d, rank);
    }
  }

  lemma RowIsOk(table: seq<(string, Def)>, ranks: seq<nat>, i: nat)
    requires SchemaOk(table, ranks) && i < |table|
    ensures |ranks| == |table| && !table[i].1.Name? && Layered(table, ranks, table[i].1, ranks[i]) && Plain(table[i].1)
  {
  }

  lemma {:induction false} SmallerSubset(a: set<string>, b: set<string>)
    requires a <= b
    ensures |a| <= |b| && (|a| == |b| ==> a == b)
  {
    if x :| x in a {
      SmallerSubset(a - {x}, b - {x});
    } else if b != {} {
      var y :| y in b;
      assert |b| > 0;
    }
  }

  /** With as many fields as the definition and every defined one present, there is no other. */
  lemma {:induction false} FieldsArePrintable(table: seq<(string, Def)>, ranks: seq<nat>, v: Value, d: Def, rank: nat)
    requires SchemaOk(table, ranks) && Layered(table, ranks, d, rank) && Plain(d) && Matches(table, ranks, v, d, rank) && d.Fields?
    ensures Printable(v, rank + 1) && CanonicalNumbers(v)
    decreases rank, 0, 0
  {
    hide FormatOk, SchemaOk, Layered, Plain, Matches;
    FieldsHeader(table, ranks, v, d, rank);
    var names := FieldNames(d.fields);
    forall k | k in names ensures k in v.fields.Keys {
      var i :| 0 <= i < |d.fields| && d.fields[i].0 == k;
      FieldsStep(table, ranks, v, d, rank, i);
    }
    SmallerSubset(names, v.fields.Keys);
    assert |v.fields.Keys| == |v.fields|;
    forall k | k in v.fields ensures Printable(v.fields[k], rank) && CanonicalNumbers(v.fields[k]) {
      assert k in names;
      var i :| 0 <= i < |d.fields| && d.fields[i].0 == k;
      FieldsStep(table, ranks, v, d, rank, i);
      MatchedIsPrintable(table, ranks, v.fields[k], d.fields[i].1, rank - 1);
    }
  }

  lemma FieldsHeader(table: seq<(string, Def)>, ranks: seq<nat>, v: Value, d: Def, rank: nat)
    requires SchemaOk(table, ranks) && Layered(table, ranks, d, rank) && Matches(table, ranks, v, d, rank) && d.Fields?
    ensures rank > 0 && v.Object? && |v.fields| == |FieldNames(d.fields)|
  {
    hide FormatOk, SchemaOk;
  }

  /** Encoding and decoding undo each other: a frame decodes to a message exactly when the message encodes to
      the frame. */
  lemma DecodeIffEncode(frame: string, v: Value)
    ensures Decode(frame) == Ok(v) <==> Encode(v) == Ok(frame)
  {
    hide Print, Parse, CanonicalNumbers, Matches, ByteLength;
    if Encode(v) == Ok(frame) {
      EncodedIsPrintable(v);
      PrintThenParse(v);
    }
  }

  lemma EncodedIsPrintable(v: Value)
    requires Validate(v).None?
    ensures Printable(v, DEPTH_LIMIT) && CanonicalNumbers(v)
  {
    hide Printable, CanonicalNumbers, Matches;
    SchemaIsOk();
    MatchedIsPrintable(DEFINITIONS, RANKS, v, ROOT, 4);
    PrintableDeeper(v, 5, DEPTH_LIMIT);
  }

  /** The wire form is injective, and an accepted frame has no other spelling. */
  lemma OneFrameEach(a: string, b: string, v: Value, w: Value)
    ensures Encode(v).Ok? && Encode(v) == Encode(w) ==> v == w
    ensures Decode(a).Ok? && Decode(a) == Decode(b) ==> a == b
  {
    if Encode(v).Ok? && Encode(v) == Encode(w) {
      DecodeIffEncode(Encode(v).value, v);
      DecodeIffEncode(Encode(v).value, w);
    }
    if Decode(a).Ok? && Decode(a) == Decode(b) {
      DecodeIffEncode(a, Decode(a).value);
      DecodeIffEncode(b, Decode(a).value);
    }
  }

  // ---------- what an accepted frame holds ----------

  /** A record has exactly the keys of its definition. */
  lemma RecordKeys(table: seq<(string, Def)>, ranks: seq<nat>, v: Value, d: Def, rank: nat)
    requires SchemaOk(table, ranks) && Layered(table, ranks, d, rank) && Plain(d) && Matches(table, ranks, v, d, rank) && d.Fields?
    ensures rank > 0 && v.Object? && v.fields.Keys == FieldNames(d.fields)
  {
    hide FormatOk, SchemaOk, Layered, Plain, Matches;
    FieldsHeader(table, ranks, v, d, rank);
    var names := FieldNames(d.fields);
    forall k | k in names ensures k in v.fields.Keys {
      var i :| 0 <= i < |d.fields| && d.fields[i].0 == k;
      FieldsStep(table, ranks, v, d, rank, i);
    }
    SmallerSubset(names, v.fields.Keys);
    assert |v.fields.Keys| == |v.fields|;
  }

  /** What matches a name matches what it names. */
  lemma Follow(v: Value, k: nat, rank: nat)
    requires SchemaOk(DEFINITIONS, RANKS) && k < |DEFINITIONS|
    requires Layered(DEFINITIONS, RANKS, Name(DEFINITIONS[k].0), rank) && Matches(DEFINITIONS, RANKS, v, Name(DEFINITIONS[k].0), rank)
    ensures Layered(DEFINITIONS, RANKS, DEFINITIONS[k].1, RANKS[k]) && Plain(DEFINITIONS[k].1)
    ensures Matches(DEFINITIONS, RANKS, v, DEFINITIONS[k].1, RANKS[k])
  {
    Found(k);
    BooleanIsNoMark(k);
    hide DEFINITIONS, RANKS, FormatOk, SchemaOk, BOOLEAN;
    RowIsOk(DEFINITIONS, RANKS, k);
  }

  lemma NamesOf(a: string, b: string, c: string, fields: seq<(string, Def)>)
    requires |fields| == 3 && fields[0].0 == a && fields[1].0 == b && fields[2].0 == c
    ensures FieldNames(fields) == {a, b, c}
  {
    assert fields[0].0 in FieldNames(fields) && fields[1].0 in FieldNames(fields) && fields[2].0 in FieldNames(fields);
  }

  lemma MatchesText(v: Value, f: Format, rank: nat)
    requires SchemaOk(DEFINITIONS, RANKS) && Layered(DEFINITIONS, RANKS, StringOf(f), rank)
    requires Matches(DEFINITIONS, RANKS, v, StringOf(f), rank)
    ensures v.Text? && FormatOk(v.s, f)
  {
    hide DEFINITIONS, RANKS, FormatOk, SchemaOk;
  }

  lemma MatchesVariant(v: Value, d: Def, rank: nat)
    requires SchemaOk(DEFINITIONS, RANKS) && Layered(DEFINITIONS, RANKS, d, rank) && d.Variants?
    requires Matches(DEFINITIONS, RANKS, v, d, rank)
    ensures v.Object? && d.tag in v.fields && v.fields[d.tag].Text?
    ensures exists i :: 0 <= i < |d.variants| && d.variants[i].0 == v.fields[d.tag].s
  {
    hide DEFINITIONS, RANKS, FormatOk, SchemaOk;
    var i := Find(d.variants, v.fields[d.tag].s).value;
    assert d.variants[i].0 == v.fields[d.tag].s;
  }

  lemma MessageFields()
    ensures MESSAGE.Fields? && MESSAGE.fields[0] == ("schemaVersion", Constant(Natural(1))) && MESSAGE.fields[1] == ("requestId", Name("Id"))
    ensures MESSAGE.fields[2] == ("body", Name("Body")) && |MESSAGE.fields| == 3
    ensures DEFINITIONS[17] == ("Message", MESSAGE) && DEFINITIONS[0] == ("Id", ID) && DEFINITIONS[16] == ("Body", BODY)
    ensures |RANKS| == |DEFINITIONS| == 18 && ID == StringOf(Opaque(256)) && BODY.Variants? && BODY.tag == "kind" && ROOT == Name("Message")
    ensures forall i :: 0 <= i < |BODY.variants| ==>
              BODY.variants[i].0 in {"describe", "capabilities", "observation", "output-receipt", "error"}
  {
  }

  /** An accepted frame is at most 64 KiB of exactly one version 1 message: these three keys and no other, a request
      identity of at most 256 bytes without control characters, and a body of one of five kinds. */
  lemma AcceptedIsMessage(frame: string, v: Value)
    requires Decode(frame) == Ok(v)
    ensures ByteLength(frame) <= 65536 && v.Object? && v.fields.Keys == {"schemaVersion", "requestId", "body"}
    ensures v.fields["schemaVersion"] == Natural(1)
    ensures var id := v.fields["requestId"];
            id.Text? && id.s != "" && ByteLength(id.s) <= 256 && forall c :: c in id.s ==> !Control(c)
    ensures var body := v.fields["body"];
            && body.Object? && "kind" in body.fields && body.fields["kind"].Text?
            && body.fields["kind"].s in {"describe", "capabilities", "observation", "output-receipt", "error"}
  {
    hide Print, Parse, CanonicalNumbers, Matches, ByteLength, Layered, Plain, SchemaOk, DEFINITIONS, RANKS, MESSAGE, BODY, ID, Find, ROOT;
    SchemaIsOk();
    MessageFields();
    Follow(v, 17, 4);
    RecordKeys(DEFINITIONS, RANKS, v, MESSAGE, RANKS[17]);
    NamesOf("schemaVersion", "requestId", "body", MESSAGE.fields);
    FieldsStep(DEFINITIONS, RANKS, v, MESSAGE, RANKS[17], 1);
    FieldsStep(DEFINITIONS, RANKS, v, MESSAGE, RANKS[17], 2);
    Follow(v.fields["requestId"], 0, RANKS[17] - 1);
    MatchesText(v.fields["requestId"], Opaque(256), RANKS[0]);
    Follow(v.fields["body"], 16, RANKS[17] - 1);
    MatchesVariant(v.fields["body"], BODY, RANKS[16]);
  }

  lemma DigitsNext(n: nat, ones: nat)
    requires n > 0 && ones < 10
    ensures Digits(n * 10 + ones) == Digits(n) + [DigitOf(ones)]
  {
    assert (n * 10 + ones) / 10 == n && (n * 10 + ones) % 10 == ones;
  }

  lemma ValueOfNext(rest: string, last: char)
    requires AllDigits(rest) && IsDigit(last)
    ensures AllDigits(rest + [last])
    ensures exists ones: nat :: ones < 10 && DigitOf(ones) == last && ValueOf(rest + [last]) == ValueOf(rest) * 10 + ones
  {
    assert (rest + [last])[..|rest|] == rest;
    var ones: nat := last as int - '0' as int;
    assert DigitOf(ones) == last;
  }

  lemma DigitsGrow(rest: string, last: char)
    requires AllDigits(rest) && IsDigit(last) && AllDigits(rest + [last]) && ValueOf(rest) > 0 && rest == Digits(ValueOf(rest))
    ensures rest + [last] == Digits(ValueOf(rest + [last])) && ValueOf(rest + [last]) > 0
  {
    hide ValueOf, Digits, DigitOf;
    ValueOfNext(rest, last);
    var ones: nat :| ones < 10 && DigitOf(ones) == last && ValueOf(rest + [last]) == ValueOf(rest) * 10 + ones;
    DigitsNext(ValueOf(rest), ones);
  }

  /** A counter has one spelling: the decimal digits of its value. */
  lemma {:induction false} DecimalIsDigits(s: string)
    requires s != "" && AllDigits(s) && (s == "0" || s[0] != '0')
    ensures s == Digits(ValueOf(s)) && (ValueOf(s) == 0 ==> s == "0")
    decreases |s|
  {
    hide ValueOf, Digits, DigitOf, IsDigit;
    var last, rest := s[|s| - 1], s[..|s| - 1];
    assert last in s && s == rest + [last];
    if rest == "" {
      OneDigit(last);
    } else {
      assert rest[0] == s[0];
      assert forall c :: c in rest ==> c in s;
      DecimalIsDigits(rest);
      assert "0"[0] == '0';
      DigitsGrow(rest, last);
    }
  }

  lemma OneDigit(c: char)
    requires IsDigit(c)
    ensures Digits(ValueOf([c])) == [c] && (ValueOf([c]) == 0 ==> c == '0')
  {
    assert [c][..0] == "";
  }

  lemma CountersAreDecimal(s: string)
    ensures FormatOk(s, Uint64) <==> exists n :: 0 <= n <= U64_MAX && s == Digits(n)
    ensures FormatOk(s, Generation) <==> exists n :: 0 < n <= U64_MAX && s == Digits(n)
  {
    if Decimal(s) {
      DecimalIsDigits(s);
    }
    forall n: nat | s == Digits(n) ensures Decimal(s) == (n <= U64_MAX) && ValueOf(s) == n { ValueOfDigits(n); }
  }
}
