/** The line-oriented parser of the model registry (governance/registry/evaluate.py).

    A scalar is kept as the stripped text its value is read from. */
module RegistryParser {
  import opened Wrappers
  import opened Text

  datatype Value = Scalar(text: string) | Items(items: seq<string>)

  /** Fields by key, and models by name. */
  type Fields = map<string, Value>
  type Registry = map<string, Fields>

  datatype ParseError = UnsupportedLine | UnsupportedEntry | NotAList

  const LIST_KEYS := ["allowed_namespaces", "allowed_teams", "allowed_regions"]

  /** What the loop carries from line to line. */
  datatype State = State(registry: Registry, inModels: bool, model: Option<string>, listKey: Option<string>)

  const START := State(map[], false, None, None)

  predicate StateOk(s: State) {
    && (s.model.Some? ==> s.inModels && s.model.value in s.registry)
    && (s.listKey.Some? ==>
          && s.model.Some? && s.listKey.value in s.registry[s.model.value]
          && s.registry[s.model.value][s.listKey.value].Items?)
  }

  /* Reading one line */

  /** The number of leading spaces; other white space does not count. */
  function Indent(raw: string): nat {
    if raw != "" && raw[0] == ' ' then 1 + Indent(raw[1..]) else 0
  }

  predicate StartsWith(s: string, prefix: string) {
    prefix <= s
  }

  predicate EndsWithColon(s: string) {
    s != "" && s[|s| - 1] == ':'
  }

  /** Blank, or a comment. */
  predicate Noise(raw: string) {
    Strip(raw) == "" || StartsWith(TrimLeft(raw), "#")
  }

  /** The part before the first colon, or everything. */
  function BeforeColon(s: string): (r: string)
    ensures |r| <= |s|
  {
    if s == "" || s[0] == ':' then "" else [s[0]] + BeforeColon(s[1..])
  }

  function AfterColon(s: string): string {
    var n := |BeforeColon(s)|;
    if n == |s| then "" else s[n + 1..]
  }

  function Put(r: Registry, model: string, key: string, v: Value): Registry
    requires model in r
  {
    r[model := r[model][key := v]]
  }

  /** `registry[model].setdefault(key, []).append(item)`. */
  function AppendItem(r: Registry, model: string, key: string, item: string): Result<Registry, ParseError>
    requires model in r
  {
    if key !in r[model] then Ok(Put(r, model, key, Items([item])))
    else match r[model][key]
      case Items(items) => Ok(Put(r, model, key, Items(items + [item])))
      case Scalar(_) => Err(NotAList)
  }

  function WithItem(s: State, key: string, item: string): Result<State, ParseError>
    requires StateOk(s) && s.model.Some?
  {
    match AppendItem(s.registry, s.model.value, key, item)
    case Ok(r) => Ok(s.(registry := r))
    case Err(e) => Err(e)
  }

  /** A line of a model's fields, at indent 4, that is not an item. */
  function FieldLine(s: State, line: string): Result<State, ParseError>
    requires StateOk(s) && s.model.Some?
  {
    var key, value := BeforeColon(line), Strip(AfterColon(line));
    if key == "" then Err(UnsupportedEntry)
    else if value == "" then
      if key in LIST_KEYS then Ok(s.(registry := Put(s.registry, s.model.value, key, Items([])), listKey := Some(key)))
      else Err(UnsupportedEntry)
    else Ok(s.(registry := Put(s.registry, s.model.value, key, Scalar(value)), listKey := None))
  }

  /** One round of the loop. */
  function Read(s: State, raw: string): (r: Result<State, ParseError>)
    requires StateOk(s)
    ensures r.Ok? ==> StateOk(r.value)
  {
    var indent, line := Indent(raw), Strip(raw);
    if Noise(raw) then Ok(s)
    else if indent == 0 && line == "models:" then Ok(s.(inModels := true))
    else if !s.inModels then Err(UnsupportedLine)
    else if indent == 2 && EndsWithColon(line) then
      var name := line[..|line| - 1];
      Ok(s.(registry := s.registry[name := map[]], model := Some(name), listKey := None))
    else if indent == 4 && s.model.Some? then
      if StartsWith(line, "- ") then
        if s.listKey.Some? then WithItem(s, s.listKey.value, line[2..]) else Ok(s)
      else FieldLine(s, line)
    else if indent == 6 && s.model.Some? && StartsWith(line, "- ") then
      WithItem(s, if s.listKey.Some? then s.listKey.value else "allowed_namespaces", line[2..])
    else Err(UnsupportedLine)
  }

  function ReadAll(s: State, lines: seq<string>): (r: Result<State, ParseError>)
    requires StateOk(s)
    ensures r.Ok? ==> StateOk(r.value)
    decreases |lines|
  {
    if lines == [] then Ok(s)
    else match Read(s, lines[0])
      case Ok(s') => ReadAll(s', lines[1..])
      case Err(e) => Err(e)
  }

  function Parse(lines: seq<string>): Result<Registry, ParseError> {
    match ReadAll(START, lines)
    case Ok(s) => Ok(s.registry)
    case Err(e) => Err(e)
  }

  /** `parse_registry`, after the file is split into lines. */
  method ParseRegistry(lines: seq<string>) returns (r: Result<Registry, ParseError>)
    ensures r == Parse(lines)
  {
    hide Strip, TrimLeft, Indent, BeforeColon, AfterColon, Noise;
    var registry: Registry := map[];
    var inModels := false;
    var model: Option<string> := None;
    var listKey: Option<string> := None;
    for i := 0 to |lines|
      invariant StateOk(State(registry, inModels, model, listKey))
      invariant ReadAll(START, lines) == ReadAll(State(registry, inModels, model, listKey), lines[i..])
    {
      var raw := lines[i];
      ghost var s := State(registry, inModels, model, listKey);
      assert lines[i..][0] == raw && lines[i..][1..] == lines[i + 1..];
      if Noise(raw) { continue; }
      var indent, line := Indent(raw), Strip(raw);
      if indent == 0 && line == "models:" {
        inModels := true;
        continue;
      }
      if !inModels { return Err(UnsupportedLine); }
      if indent == 2 && EndsWithColon(line) {
        model := Some(line[..|line| - 1]);
        listKey := None;
        registry := registry[model.value := map[]];
        continue;
      }
      if indent == 4 && model.Some? {
        if StartsWith(line, "- ") {
          if listKey.Some? {
            var added := AppendItem(registry, model.value, listKey.value, line[2..]);
            registry := added.value;
          }
          continue;
        }
        var key, value := BeforeColon(line), Strip(AfterColon(line));
        if key == "" { return Err(UnsupportedEntry); }
        if value == "" {
          if key !in LIST_KEYS { return Err(UnsupportedEntry); }
          registry := Put(registry, model.value, key, Items([]));
          listKey := Some(key);
          continue;
        }
        listKey := None;
        registry := Put(registry, model.value, key, Scalar(value));
        continue;
      }
      if indent == 6 && model.Some? && StartsWith(line, "- ") {
        var key := if listKey.Some? then listKey.value else "allowed_namespaces";
        var added := AppendItem(registry, model.value, key, line[2..]);
        if added.Err? { return Err(added.error); }
        registry := added.value;
        continue;
      }
      return Err(UnsupportedLine);
    }
    assert lines[|lines|..] == [];
    r := Ok(registry);
  }

  /* Blank lines and comments */

  function Significant(lines: seq<string>): seq<string> {
    if lines == [] then []
    else if Noise(lines[0]) then Significant(lines[1..])
    else [lines[0]] + Significant(lines[1..])
  }

  /** Only the significant lines matter, wherever blank lines and comments stand among them. */
  lemma {:induction false} NoiseIsIgnored(s: State, lines: seq<string>)
    requires StateOk(s)
    ensures ReadAll(s, lines) == ReadAll(s, Significant(lines))
    decreases |lines|
  {
    hide Noise, Indent, Strip, FieldLine;
    if lines != [] {
      if Noise(lines[0]) {
        assert Read(s, lines[0]) == Ok(s);
        NoiseIsIgnored(s, lines[1..]);
      } else {
        var significant := Significant(lines);
        assert significant[0] == lines[0] && significant[1..] == Significant(lines[1..]);
        match Read(s, lines[0]) {
          case Ok(s') => NoiseIsIgnored(s', lines[1..]);
          case Err(_) =>
        }
      }
    }
  }

  /** Hence two files with the same significant lines parse alike. */
  lemma NoiseMayGoAnywhere(lines: seq<string>, lines': seq<string>)
    requires Significant(lines) == Significant(lines')
    ensures Parse(lines) == Parse(lines')
  {
    NoiseIsIgnored(START, lines);
    NoiseIsIgnored(START, lines');
  }

  /* Canonical lines */

  function Spaces(n: nat): (r: string)
    ensures |r| == n && forall i :: 0 <= i < n ==> r[i] == ' '
  {
    seq(n, i => ' ')
  }

  /** Text that stripping leaves alone and that is no comment. */
  predicate Visible(t: string) {
    t != "" && !IsSpace(t[0]) && !IsSpace(t[|t| - 1]) && t[0] != '#'
  }

  lemma {:induction false} LeadingSpaces(n: nat, t: string)
    requires t != "" && !IsSpace(t[0])
    ensures Indent(Spaces(n) + t) == n && TrimLeft(Spaces(n) + t) == t
  {
    var raw := Spaces(n) + t;
    if n == 0 {
      assert raw == t;
    } else {
      LeadingSpaces(n - 1, t);
      assert raw[1..] == Spaces(n - 1) + t;
    }
  }

  lemma IndentedLine(n: nat, t: string)
    requires Visible(t)
    ensures var raw := Spaces(n) + t; Indent(raw) == n && Strip(raw) == t && !Noise(raw)
  {
    LeadingSpaces(n, t);
    assert TrimRight(t) == t;
  }

  lemma {:induction false} KeyAndValue(key: string, rest: string)
    requires ':' !in key
    ensures BeforeColon(key + ":" + rest) == key && AfterColon(key + ":" + rest) == rest
  {
    var s := key + ":" + rest;
    if key != "" {
      KeyAndValue(key[1..], rest);
      assert s[1..] == key[1..] + ":" + rest;
    }
  }

  /* Items at indent 4 and 6 */

  function ItemLine(indent: nat, item: string): string {
    Spaces(indent) + ("- " + item)
  }

  predicate ItemOk(item: string) {
    item != "" && !IsSpace(item[|item| - 1])
  }

  /** What an item line does at either indent. */
  lemma ReadItem(s: State, indent: nat, item: string)
    requires StateOk(s) && ItemOk(item) && (indent == 4 || indent == 6)
    ensures Read(s, ItemLine(indent, item)) ==
      if s.model.None? then Err(UnsupportedLine)
      else if s.listKey.Some? then WithItem(s, s.listKey.value, item)
      else if indent == 4 then Ok(s)
      else WithItem(s, "allowed_namespaces", item)
  {
    hide Strip, Indent, Noise;
    var t := "- " + item;
    assert Visible(t);
    IndentedLine(indent, t);
    assert t[2..] == item;
  }

  /** The two indents mean the same exactly when a list is open or no model is; otherwise indent 4
      drops the item, while indent 6 adds it to the namespaces. */
  lemma IndentsAgreeExactlyWhen(s: State, item: string)
    requires StateOk(s) && ItemOk(item)
    ensures Read(s, ItemLine(4, item)) == Read(s, ItemLine(6, item)) <==> s.model.None? || s.listKey.Some?
  {
    hide Read;
    ReadItem(s, 4, item);
    ReadItem(s, 6, item);
    if s.model.Some? && s.listKey.None? {
      var r := WithItem(s, "allowed_namespaces", item);
      if r.Ok? {
        var before, after := s.registry[s.model.value], r.value.registry[s.model.value];
        assert "allowed_namespaces" in before ==> before["allowed_namespaces"] != after["allowed_namespaces"];
      }
    }
  }

  /** A model with no field yet, and an item: dropped at one indent, added at the other. */
  lemma IndentsCanDiffer()
    ensures Parse(["models:", "  m:", ItemLine(4, "x")]) == Ok(map["m" := map[]])
    ensures Parse(["models:", "  m:", ItemLine(6, "x")]) == Ok(map["m" := map["allowed_namespaces" := Items(["x"])]])
  {
    HeadersRead();
    ItemAfterHeaders(4);
    ItemAfterHeaders(6);
  }

  lemma HeadersRead()
    ensures Read(START, "models:") == Ok(START.(inModels := true))
    ensures Read(START.(inModels := true), "  m:") == Ok(State(map["m" := map[]], true, Some("m"), None))
  {
    hide Strip, Indent, Noise;
    IndentedLine(0, "models:");
    assert Spaces(0) + "models:" == "models:";
    IndentedLine(2, "m:");
    assert Spaces(2) + "m:" == "  m:";
    assert "m:"[..1] == "m";
  }

  lemma ItemAfterHeaders(indent: nat)
    requires indent == 4 || indent == 6
    ensures Parse(["models:", "  m:", ItemLine(indent, "x")]) ==
      Ok(map["m" := if indent == 4 then map[] else map["allowed_namespaces" := Items(["x"])]])
  {
    hide Read, ItemLine;
    HeadersRead();
    var s2 := State(map["m" := map[]], true, Some("m"), None);
    var lines := ["models:", "  m:", ItemLine(indent, "x")];
    ReadItem(s2, indent, "x");
    assert lines[1..][0] == "  m:" && lines[1..][1..] == [ItemLine(indent, "x")];
    ReadOne(s2, ItemLine(indent, "x"));
    var empty: Fields := map[];
    assert s2.registry["m"] == empty;
    assert empty["allowed_namespaces" := Items(["x"])] == map["allowed_namespaces" := Items(["x"])];
    assert Put(s2.registry, "m", "allowed_namespaces", Items(["x"])) == map["m" := map["allowed_namespaces" := Items(["x"])]];
    var s1 := START.(inModels := true);
    assert ReadAll(s1, lines[1..]) == ReadAll(s2, [ItemLine(indent, "x")]);
  }

  /* What is refused */

  /** A line the parser understands where it stands: noise, the header, a model, and inside a model an item,
      a field with a value, or one of the three lists. An item at indent 6 where no list is open needs the
      namespaces to be a list, or not there yet. */
  predicate Understood(s: State, raw: string)
    requires StateOk(s)
  {
    var indent, line := Indent(raw), Strip(raw);
    || Noise(raw)
    || (indent == 0 && line == "models:")
    || (indent == 2 && s.inModels && EndsWithColon(line))
    || (indent == 4 && s.model.Some? && (StartsWith(line, "- ") || IsField(line)))
    || (indent == 6 && s.model.Some? && StartsWith(line, "- ")
        && (s.listKey.Some? || NamespacesOpen(s.registry[s.model.value])))
  }

  predicate IsField(line: string) {
    var key, value := BeforeColon(line), Strip(AfterColon(line));
    key != "" && (value != "" || key == "allowed_namespaces" || key == "allowed_teams" || key == "allowed_regions")
  }

  predicate NamespacesOpen(fields: Fields) {
    "allowed_namespaces" !in fields || fields["allowed_namespaces"].Items?
  }

  lemma UnderstoodExactlyWhen(s: State, raw: string)
    requires StateOk(s)
    ensures Read(s, raw).Ok? <==> Understood(s, raw)
  {
    hide Noise, Indent, Strip, BeforeColon, AfterColon;
  }

  /** A file that parses and says anything at all opens with the header. */
  lemma FileOpensWithModels(lines: seq<string>)
    requires Parse(lines).Ok? && Significant(lines) != []
    ensures var first := Significant(lines)[0]; Indent(first) == 0 && Strip(first) == "models:"
  {
    hide Indent, Strip, BeforeColon, AfterColon;
    NoiseIsIgnored(START, lines);
    SignificantIsNotNoise(lines);
    UnderstoodExactlyWhen(START, Significant(lines)[0]);
  }

  lemma {:induction false} SignificantIsNotNoise(lines: seq<string>)
    requires Significant(lines) != []
    ensures !Noise(Significant(lines)[0])
  {
    if Noise(lines[0]) { SignificantIsNotNoise(lines[1..]); }
  }

  /** A file is parsed up to its first line that is not understood, and only a file without one is parsed. */
  lemma {:induction false} ParsesExactlyWhen(s: State, lines: seq<string>)
    requires StateOk(s)
    ensures ReadAll(s, lines).Ok? <==>
      forall i :: 0 <= i < |lines| && ReadAll(s, lines[..i]).Ok? ==> Understood(ReadAll(s, lines[..i]).value, lines[i])
    decreases |lines|
  {
    hide Read, Understood;
    if lines != [] {
      var m := |lines| - 1;
      ParsesExactlyWhen(s, lines[..m]);
      assert lines[..m] + [lines[m]] == lines;
      ReadAppend(s, lines[..m], [lines[m]]);
      forall i | 0 <= i <= m ensures lines[..m][..i] == lines[..i] {}
      if ReadAll(s, lines[..m]).Ok? {
        ReadOne(ReadAll(s, lines[..m]).value, lines[m]);
        UnderstoodExactlyWhen(ReadAll(s, lines[..m]).value, lines[m]);
      } else {
        var i :| 0 <= i < m && ReadAll(s, lines[..m][..i]).Ok?
                 && !Understood(ReadAll(s, lines[..m][..i]).value, lines[..m][i]);
        assert lines[..m][i] == lines[i];
      }
    }
  }

  /* Printing */

  datatype Entry = ScalarEntry(key: string, text: string) | ListEntry(key: string, items: seq<string>)

  datatype Model = Model(name: string, entries: seq<Entry>)

  predicate NameOk(name: string) {
    name == "" || (!IsSpace(name[0]) && name[0] != '#')
  }

  predicate EntryOk(e: Entry) {
    match e
    case ScalarEntry(key, text) =>
      && key != "" && ':' !in key && !IsSpace(key[0]) && key[0] != '#' && !StartsWith(key, "- ")
      && text != "" && Strip(text) == text
    case ListEntry(key, items) => key in LIST_KEYS && forall i :: 0 <= i < |items| ==> ItemOk(items[i])
  }

  predicate ModelOk(m: Model) {
    NameOk(m.name) && forall i :: 0 <= i < |m.entries| ==> EntryOk(m.entries[i])
  }

  function PrintItems(items: seq<string>, indent: nat): seq<string> {
    if items == [] then [] else PrintItems(items[..|items| - 1], indent) + [ItemLine(indent, items[|items| - 1])]
  }

  function PrintEntry(e: Entry, indent: nat): seq<string> {
    match e
    case ScalarEntry(key, text) => [Spaces(4) + (key + ":" + (" " + text))]
    case ListEntry(key, items) => [Spaces(4) + (key + ":")] + PrintItems(items, indent)
  }

  function PrintEntries(es: seq<Entry>, indent: nat): seq<string> {
    if es == [] then [] else PrintEntries(es[..|es| - 1], indent) + PrintEntry(es[|es| - 1], indent)
  }

  function PrintModel(m: Model, indent: nat): seq<string> {
    [Spaces(2) + (m.name + ":")] + PrintEntries(m.entries, indent)
  }

  function PrintModels(ms: seq<Model>, indent: nat): seq<string> {
    if ms == [] then [] else PrintModels(ms[..|ms| - 1], indent) + PrintModel(ms[|ms| - 1], indent)
  }

  /** The canonical file, with items at the given indent. */
  function Print(ms: seq<Model>, indent: nat): seq<string> {
    ["models:"] + PrintModels(ms, indent)
  }

  function ValueOf(e: Entry): Value {
    match e
    case ScalarEntry(_, text) => Scalar(text)
    case ListEntry(_, items) => Items(items)
  }

  /** A later entry replaces an earlier one of the same key, and a later model one of the same name. */
  function FieldsOf(es: seq<Entry>): Fields {
    if es == [] then map[] else FieldsOf(es[..|es| - 1])[es[|es| - 1].key := ValueOf(es[|es| - 1])]
  }

  function RegistryOf(ms: seq<Model>): Registry {
    if ms == [] then map[] else RegistryOf(ms[..|ms| - 1])[ms[|ms| - 1].name := FieldsOf(ms[|ms| - 1].entries)]
  }

  lemma {:induction false} ReadAppend(s: State, a: seq<string>, b: seq<string>)
    requires StateOk(s)
    ensures ReadAll(s, a + b) ==
      match ReadAll(s, a) { case Ok(s') => ReadAll(s', b) case Err(e) => Err(e) }
    decreases |a|
  {
    hide Read;
    if a == [] {
      assert a + b == b;
    } else {
      assert (a + b)[0] == a[0] && (a + b)[1..] == a[1..] + b;
      match Read(s, a[0]) {
        case Ok(s') => ReadAppend(s', a[1..], b);
        case Err(_) =>
      }
    }
  }

  lemma ReadOne(s: State, raw: string)
    requires StateOk(s)
    ensures ReadAll(s, [raw]) == Read(s, raw)
  {
    hide Read;
    match Read(s, raw) {
      case Ok(s') => assert ReadAll(s', [raw][1..]) == Ok(s');
      case Err(_) =>
    }
  }

  /** The state inside a model once it has these fields. */
  function Inside(r: Registry, model: string, fields: Fields, listKey: Option<string>): State {
    State(r[model := fields], true, Some(model), listKey)
  }

  lemma {:induction false} ReadItems(r: Registry, model: string, fields: Fields, key: string, items: seq<string>,
                                     indent: nat)
    requires forall i :: 0 <= i < |items| ==> ItemOk(items[i])
    requires indent == 4 || indent == 6
    ensures ReadAll(Inside(r, model, fields[key := Items([])], Some(key)), PrintItems(items, indent)) ==
            Ok(Inside(r, model, fields[key := Items(items)], Some(key)))
  {
    hide Read, ItemLine;
    var s := Inside(r, model, fields[key := Items([])], Some(key));
    if items != [] {
      var front, last := items[..|items| - 1], items[|items| - 1];
      ReadItems(r, model, fields, key, front, indent);
      var s1 := Inside(r, model, fields[key := Items(front)], Some(key));
      ReadAppend(s, PrintItems(front, indent), [ItemLine(indent, last)]);
      ReadOne(s1, ItemLine(indent, last));
      ReadItem(s1, indent, last);
      assert items == front + [last];
      assert fields[key := Items(front)][key := Items(items)] == fields[key := Items(items)];
      assert s1.registry[model := fields[key := Items(items)]] == r[model := fields[key := Items(items)]];
    }
  }

  lemma ReadScalarLine(r: Registry, model: string, fields: Fields, listKey: Option<string>, e: Entry)
    requires StateOk(Inside(r, model, fields, listKey)) && EntryOk(e) && e.ScalarEntry?
    ensures Read(Inside(r, model, fields, listKey), Spaces(4) + (e.key + ":" + (" " + e.text))) ==
            Ok(Inside(r, model, fields[e.key := Scalar(e.text)], None))
  {
    hide Indent, Noise, TrimRight;
    var t := e.key + ":" + (" " + e.text);
    StrippedEnds(e.text);
    assert Visible(t) by { assert t[|t| - 1] == e.text[|e.text| - 1]; }
    IndentedLine(4, t);
    KeyAndValue(e.key, " " + e.text);
    StripSpace(e.text);
    assert !StartsWith(t, "- ") by { if |e.key| == 1 { assert t[1] == ':'; } }
    assert r[model := fields][model := fields[e.key := Scalar(e.text)]] == r[model := fields[e.key := Scalar(e.text)]];
  }

  /** The ends of stripped text are visible. */
  lemma StrippedEnds(t: string)
    requires t != "" && Strip(t) == t
    ensures !IsSpace(t[0]) && !IsSpace(t[|t| - 1])
  {
    TrimmedLength(t[1..]);
    TrimmedLength(TrimLeft(t[1..]));
    TrimmedLength(t[..|t| - 1]);
  }

  lemma TrimmedLength(t: string)
    ensures |TrimLeft(t)| <= |t| && |TrimRight(t)| <= |t|
  {
  }

  lemma StripSpace(t: string)
    requires t != "" && Strip(t) == t
    ensures Strip(" " + t) == t
  {
    assert (" " + t)[1..] == t;
  }

  lemma ReadListLine(r: Registry, model: string, fields: Fields, listKey: Option<string>, key: string)
    requires StateOk(Inside(r, model, fields, listKey)) && key in LIST_KEYS
    ensures Read(Inside(r, model, fields, listKey), Spaces(4) + (key + ":")) ==
            Ok(Inside(r, model, fields[key := Items([])], Some(key)))
  {
    hide Indent, Noise;
    var t := key + ":";
    assert Visible(t) && ':' !in key && !StartsWith(t, "- ");
    IndentedLine(4, t);
    KeyAndValue(key, "");
    assert t + "" == t;
    assert r[model := fields][model := fields[key := Items([])]] == r[model := fields[key := Items([])]];
  }

  /** The list left open after some entries. */
  function OpenList(es: seq<Entry>): Option<string> {
    if es != [] && es[|es| - 1].ListEntry? then Some(es[|es| - 1].key) else None
  }

  lemma {:induction false} ReadEntries(r: Registry, model: string, es: seq<Entry>, indent: nat)
    requires forall i :: 0 <= i < |es| ==> EntryOk(es[i])
    requires indent == 4 || indent == 6
    ensures ReadAll(Inside(r, model, map[], None), PrintEntries(es, indent)) ==
            Ok(Inside(r, model, FieldsOf(es), OpenList(es)))
  {
    hide Read, EntryOk;
    var s := Inside(r, model, map[], None);
    if es != [] {
      var front, e := es[..|es| - 1], es[|es| - 1];
      ReadEntries(r, model, front, indent);
      ReadAppend(s, PrintEntries(front, indent), PrintEntry(e, indent));
      ReadEntry(r, model, FieldsOf(front), OpenList(front), e, indent);
    }
  }

  lemma ReadEntry(r: Registry, model: string, fields: Fields, listKey: Option<string>, e: Entry, indent: nat)
    requires StateOk(Inside(r, model, fields, listKey)) && EntryOk(e) && (indent == 4 || indent == 6)
    ensures ReadAll(Inside(r, model, fields, listKey), PrintEntry(e, indent)) ==
            Ok(Inside(r, model, fields[e.key := ValueOf(e)], if e.ListEntry? then Some(e.key) else None))
  {
    hide Read;
    var s := Inside(r, model, fields, listKey);
    match e
    case ScalarEntry(key, text) =>
      ReadScalarLine(r, model, fields, listKey, e);
      ReadOne(s, PrintEntry(e, indent)[0]);
    case ListEntry(key, items) =>
      ReadListLine(r, model, fields, listKey, key);
      ReadOne(s, Spaces(4) + (key + ":"));
      ReadAppend(s, [Spaces(4) + (key + ":")], PrintItems(items, indent));
      ReadItems(r, model, fields, key, items, indent);
  }

  lemma ReadModel(s: State, m: Model, indent: nat)
    requires StateOk(s) && s.inModels && ModelOk(m) && (indent == 4 || indent == 6)
    ensures var r := ReadAll(s, PrintModel(m, indent));
      r.Ok? && r.value.inModels && r.value.registry == s.registry[m.name := FieldsOf(m.entries)]
  {
    hide ReadAll, PrintEntries, Indent, Noise, Strip, FieldsOf, EntryOk;
    var t := m.name + ":";
    assert Visible(t);
    IndentedLine(2, t);
    assert t[..|t| - 1] == m.name;
    var s1 := Inside(s.registry, m.name, map[], None);
    assert Read(s, Spaces(2) + t) == Ok(s1);
    ReadOne(s, Spaces(2) + t);
    ReadAppend(s, [Spaces(2) + t], PrintEntries(m.entries, indent));
    ReadEntries(s.registry, m.name, m.entries, indent);
  }

  lemma {:induction false} ReadModels(s: State, ms: seq<Model>, indent: nat)
    requires s == START.(inModels := true)
    requires (forall i :: 0 <= i < |ms| ==> ModelOk(ms[i])) && (indent == 4 || indent == 6)
    ensures var r := ReadAll(s, PrintModels(ms, indent));
      r.Ok? && r.value.inModels && r.value.registry == RegistryOf(ms)
  {
    hide Read, PrintModel, ModelOk, FieldsOf;
    if ms != [] {
      var front, m := ms[..|ms| - 1], ms[|ms| - 1];
      ReadModels(s, front, indent);
      ReadAppend(s, PrintModels(front, indent), PrintModel(m, indent));
      ReadModel(ReadAll(s, PrintModels(front, indent)).value, m, indent);
    }
  }

  /** Parsing inverts printing, with items at either indent. */
  lemma {:induction false} ParseInvertsPrint(ms: seq<Model>, indent: nat)
    requires (forall i :: 0 <= i < |ms| ==> ModelOk(ms[i])) && (indent == 4 || indent == 6)
    ensures Parse(Print(ms, indent)) == Ok(RegistryOf(ms))
  {
    hide PrintModels, ReadAll, RegistryOf, ModelOk;
    var s := START.(inModels := true);
    IndentedLine(0, "models:");
    assert Spaces(0) + "models:" == "models:";
    assert Read(START, "models:") == Ok(s);
    ReadOne(START, "models:");
    ReadAppend(START, ["models:"], PrintModels(ms, indent));
    ReadModels(s, ms, indent);
  }

  /* Every well-formed registry has a canonical file */

  function EntryFor(key: string, v: Value): Entry {
    match v
    case Scalar(text) => ScalarEntry(key, text)
    case Items(items) => ListEntry(key, items)
  }

  predicate FieldsOk(f: Fields) {
    forall key :: key in f ==> EntryOk(EntryFor(key, f[key]))
  }

  predicate RegistryOk(r: Registry) {
    forall name :: name in r ==> NameOk(name) && FieldsOk(r[name])
  }

  lemma {:induction false} EntriesFor(f: Fields) returns (es: seq<Entry>)
    requires FieldsOk(f)
    ensures FieldsOf(es) == f && forall i :: 0 <= i < |es| ==> EntryOk(es[i])
    decreases |f|
  {
    hide EntryOk;
    if f == map[] {
      es := [];
    } else {
      var key :| key in f;
      var rest := f - {key};
      assert rest.Keys == f.Keys - {key} && |rest| == |rest.Keys| && |f| == |f.Keys|;
      var front := EntriesFor(rest);
      es := front + [EntryFor(key, f[key])];
      assert es[..|es| - 1] == front;
      PutBack(f, key);
    }
  }

  lemma PutBack(f: Fields, key: string)
    requires key in f
    ensures (f - {key})[key := f[key]] == f
  {
  }

  lemma {:induction false} ModelsFor(r: Registry) returns (ms: seq<Model>)
    requires RegistryOk(r)
    ensures RegistryOf(ms) == r && forall i :: 0 <= i < |ms| ==> ModelOk(ms[i])
    decreases |r|
  {
    hide EntryOk, NameOk, FieldsOk;
    if r == map[] {
      ms := [];
    } else {
      var name :| name in r;
      var rest := r - {name};
      assert rest.Keys == r.Keys - {name} && |rest| == |rest.Keys| && |r| == |r.Keys|;
      var front := ModelsFor(rest);
      var entries := EntriesFor(r[name]);
      ms := front + [Model(name, entries)];
      assert ms[..|ms| - 1] == front;
      assert rest[name := r[name]] == r;
    }
  }

  /** The round trip, for every registry with well-formed names, keys and values. */
  lemma EveryRegistryParsesBack(r: Registry, indent: nat)
    requires RegistryOk(r) && (indent == 4 || indent == 6)
    ensures exists ms :: RegistryOf(ms) == r && Parse(Print(ms, indent)) == Ok(r)
  {
    hide Parse, Print, RegistryOf;
    var ms := ModelsFor(r);
    ParseInvertsPrint(ms, indent);
  }
}
