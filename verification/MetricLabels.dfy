/** Rendering of metric labels in the Prometheus text exposition format 0.0.4
    (apps/control-api/app/metrics_util.py:32-50). */
module MetricLabels {
  import opened Wrappers

  /** Python's `s.replace(c, r)` for a one-character pattern. */
  function Replace(s: string, c: char, r: string): string {
    if s == "" then "" else (if s[0] == c then r else [s[0]]) + Replace(s[1..], c, r)
  }

  /** `metric_label_value`: three replacements of the whole string, one after the other. */
  function LabelValue(v: string): string {
    Replace(Replace(Replace(v, '\\', "\\\\"), '\n', "\\n"), '"', "\\\"")
  }

  /** How the format writes one character of a label value. */
  function Escaped(c: char): string {
    if c == '\\' then "\\\\" else if c == '\n' then "\\n" else if c == '"' then "\\\"" else [c]
  }

  /** The same in a single pass. */
  function Escape(v: string): string {
    if v == "" then "" else Escaped(v[0]) + Escape(v[1..])
  }

  lemma {:induction false} ReplaceAppend(a: string, b: string, c: char, r: string)
    ensures Replace(a + b, c, r) == Replace(a, c, r) + Replace(b, c, r)
  {
    if a == "" {
      assert a + b == b;
    } else {
      assert (a + b)[1..] == a[1..] + b;
      ReplaceAppend(a[1..], b, c, r);
    }
  }

  lemma ReplaceOne(x: char, c: char, r: string)
    ensures Replace([x], c, r) == if x == c then r else [x]
  {
    assert [x][1..] == "";
  }

  lemma ReplaceTwo(x: char, y: char, c: char, r: string)
    requires x != c && y != c
    ensures Replace([x, y], c, r) == [x, y]
  {
    assert [x, y][1..] == [y];
    ReplaceOne(y, c, r);
  }

  lemma LabelValueOfOne(x: char)
    ensures LabelValue([x]) == Escaped(x)
  {
    ReplaceOne(x, '\\', "\\\\");
    if x == '\\' {
      ReplaceTwo('\\', '\\', '\n', "\\n");
      ReplaceTwo('\\', '\\', '"', "\\\"");
    } else {
      ReplaceOne(x, '\n', "\\n");
      if x == '\n' { ReplaceTwo('\\', 'n', '"', "\\\""); } else { ReplaceOne(x, '"', "\\\""); }
    }
  }

  /** No replacement touches what another has put in, because the backslash is replaced first. */
  lemma {:induction false} ReplacingIsEscaping(v: string)
    ensures LabelValue(v) == Escape(v)
  {
    hide Escaped;
    if v != "" {
      assert v == [v[0]] + v[1..];
      ReplaceAppend([v[0]], v[1..], '\\', "\\\\");
      ReplaceAppend(Replace([v[0]], '\\', "\\\\"), Replace(v[1..], '\\', "\\\\"), '\n', "\\n");
      ReplaceAppend(Replace(Replace([v[0]], '\\', "\\\\"), '\n', "\\n"),
                    Replace(Replace(v[1..], '\\', "\\\\"), '\n', "\\n"), '"', "\\\"");
      LabelValueOfOne(v[0]);
      ReplacingIsEscaping(v[1..]);
    }
  }

  /* Reading values back */

  datatype Parsed<T> = Parsed(value: T, rest: string)

  /** The character a backslash and c stand for. */
  function Unescaped(c: char): Option<char> {
    if c == '\\' then Some('\\') else if c == 'n' then Some('\n') else if c == '"' then Some('"') else None
  }

  /** Reads a label value after its opening quote, up to and including the closing one. */
  function ParseValue(text: string): (r: Option<Parsed<string>>)
    ensures r.Some? ==> |r.value.rest| < |text|
  {
    if text == "" || text[0] == '\n' then None
    else if text[0] == '"' then Some(Parsed("", text[1..]))
    else
      var escape := text[0] == '\\';
      if escape && (|text| < 2 || Unescaped(text[1]).None?) then None
      else
        var c := if escape then Unescaped(text[1]).value else text[0];
        match ParseValue(text[if escape then 2 else 1..])
        case Some(p) => Some(Parsed([c] + p.value, p.rest))
        case None => None
  }

  lemma ReadEscaped(c: char, tail: string)
    requires ParseValue(tail).Some?
    ensures var p := ParseValue(tail).value;
      ParseValue(Escaped(c) + tail) == Some(Parsed([c] + p.value, p.rest))
  {
    var text := Escaped(c) + tail;
    if c == '\\' || c == '\n' || c == '"' {
      assert text[2..] == tail;
    } else {
      assert text[1..] == tail;
    }
  }

  lemma ReadEnd(rest: string)
    ensures ParseValue("\"" + rest) == Some(Parsed("", rest))
  {
    assert ("\"" + rest)[1..] == rest;
  }

  lemma {:induction false} EscapeReadsBack(v: string, rest: string)
    ensures ParseValue(Escape(v) + ("\"" + rest)) == Some(Parsed(v, rest))
  {
    hide Escaped, ParseValue;
    var end := "\"" + rest;
    if v == "" {
      ReadEnd(rest);
      assert Escape(v) + end == end;
    } else {
      EscapeReadsBack(v[1..], rest);
      ReadEscaped(v[0], Escape(v[1..]) + end);
      assert Escape(v) + end == Escaped(v[0]) + (Escape(v[1..]) + end);
      assert v == [v[0]] + v[1..];
    }
  }

  /** Reading undoes rendering and stops exactly at the closing quote, whatever the value holds: no
      quote inside could be taken for the end. */
  lemma ValueReadsBack(v: string, rest: string)
    ensures ParseValue(LabelValue(v) + ("\"" + rest)) == Some(Parsed(v, rest))
  {
    hide LabelValue, ParseValue;
    ReplacingIsEscaping(v);
    EscapeReadsBack(v, rest);
  }

  /** Distinct values render distinctly. */
  lemma ValuesStayDistinct(v: string, w: string)
    ensures LabelValue(v) == LabelValue(w) <==> v == w
  {
    ValueReadsBack(v, "");
    ValueReadsBack(w, "");
  }

  lemma {:induction false} NoNewline(v: string)
    ensures '\n' !in LabelValue(v)
  {
    ReplacingIsEscaping(v);
    if v != "" {
      NoNewline(v[1..]);
      ReplacingIsEscaping(v[1..]);
    }
  }

  /* Whole lines */

  datatype Label = Label(key: string, value: string)

  function Pair(l: Label): string {
    l.key + ("=\"" + (LabelValue(l.value) + "\""))
  }

  /** Joined by commas. */
  function Pairs(ls: seq<Label>): string {
    if ls == [] then "" else if |ls| == 1 then Pair(ls[0]) else Pair(ls[0]) + ("," + Pairs(ls[1..]))
  }

  /** `metric_labels`. */
  function Labels(ls: seq<Label>): string {
    var rendered := Pairs(ls);
    if rendered != "" then "{" + (rendered + "}") else ""
  }

  /** `metric_line`, with the number already written out. */
  function Line(name: string, value: string, ls: seq<Label>): string {
    name + (Labels(ls) + (" " + value))
  }

  /** The longest prefix without any of the stop characters. */
  function Until(text: string, stops: set<char>): (r: string)
    ensures |r| <= |text|
  {
    if text == "" || text[0] in stops then "" else [text[0]] + Until(text[1..], stops)
  }

  /** Reads one pair up to and including its closing quote. */
  function ParsePair(text: string): (r: Option<Parsed<Label>>)
    ensures r.Some? ==> |r.value.rest| < |text|
  {
    var key := Until(text, {'='});
    var n := |key|;
    if |text| < n + 2 || text[n..n + 2] != "=\"" then None
    else match ParseValue(text[n + 2..])
      case None => None
      case Some(p) => Some(Parsed(Label(key, p.value), p.rest))
  }

  /** Reads pairs up to and including the closing brace. */
  function ParsePairs(text: string): Option<Parsed<seq<Label>>>
    decreases |text|
  {
    match ParsePair(text)
    case None => None
    case Some(p) =>
      if p.rest != "" && p.rest[0] == '}' then Some(Parsed([p.value], p.rest[1..]))
      else if p.rest != "" && p.rest[0] == ',' then
        (match ParsePairs(p.rest[1..])
         case Some(q) => Some(Parsed([p.value] + q.value, q.rest))
         case None => None)
      else None
  }

  function ParseLabels(text: string): Option<Parsed<seq<Label>>> {
    if text != "" && text[0] == '{' then ParsePairs(text[1..]) else Some(Parsed([], text))
  }

  datatype Sample = Sample(name: string, value: string, labels: seq<Label>)

  function ParseLine(line: string): Option<Sample> {
    var name := Until(line, {'{', ' '});
    match ParseLabels(line[|name|..])
    case None => None
    case Some(p) => if p.rest != "" && p.rest[0] == ' ' then Some(Sample(name, p.rest[1..], p.value)) else None
  }

  lemma {:induction false} UntilStop(a: string, b: string, stops: set<char>)
    requires (forall i :: 0 <= i < |a| ==> a[i] !in stops) && b != "" && b[0] in stops
    ensures Until(a + b, stops) == a
  {
    if a == "" {
      assert a + b == b;
    } else {
      assert (a + b)[1..] == a[1..] + b;
      UntilStop(a[1..], b, stops);
    }
  }

  /** Keys are Python keyword names, names are metric names. */
  predicate KeysOk(ls: seq<Label>) {
    forall i :: 0 <= i < |ls| ==> '=' !in ls[i].key
  }

  /** One pair and what follows its closing quote. */
  lemma PairReadsBack(l: Label, rest: string)
    requires '=' !in l.key
    ensures ParsePair(Pair(l) + rest) == Some(Parsed(l, rest))
  {
    hide LabelValue, ParseValue, Until;
    var text, n := Pair(l) + rest, |l.key|;
    var tail := LabelValue(l.value) + ("\"" + rest);
    assert text == l.key + ("=\"" + tail);
    UntilStop(l.key, "=\"" + tail, {'='});
    assert text[n..n + 2] == "=\"" && text[n + 2..] == tail;
    ValueReadsBack(l.value, rest);
  }

  lemma LastPair(l: Label, rest: string)
    requires '=' !in l.key
    ensures ParsePairs(Pair(l) + ("}" + rest)) == Some(Parsed([l], rest))
  {
    hide Pair, ParsePair;
    PairReadsBack(l, "}" + rest);
    assert ("}" + rest)[1..] == rest;
  }

  lemma NextPair(l: Label, more: string)
    requires '=' !in l.key && ParsePairs(more).Some?
    ensures var q := ParsePairs(more).value;
      ParsePairs(Pair(l) + ("," + more)) == Some(Parsed([l] + q.value, q.rest))
  {
    hide Pair, ParsePair;
    PairReadsBack(l, "," + more);
    assert ("," + more)[1..] == more;
  }

  lemma {:induction false} PairsReadBack(ls: seq<Label>, rest: string)
    requires ls != [] && KeysOk(ls)
    ensures ParsePairs(Pairs(ls) + ("}" + rest)) == Some(Parsed(ls, rest))
    decreases |ls|
  {
    hide Pair, ParsePairs;
    if |ls| == 1 {
      assert ls == [ls[0]];
      LastPair(ls[0], rest);
    } else {
      var more := Pairs(ls[1..]) + ("}" + rest);
      PairsReadBack(ls[1..], rest);
      NextPair(ls[0], more);
      assert Pairs(ls) + ("}" + rest) == Pair(ls[0]) + ("," + more);
      assert ls == [ls[0]] + ls[1..];
    }
  }

  /** A line reads back to its name, its value and its labels in order, whatever the label values. */
  lemma LineReadsBack(name: string, value: string, ls: seq<Label>)
    requires '{' !in name && ' ' !in name && KeysOk(ls)
    ensures ParseLine(Line(name, value, ls)) == Some(Sample(name, value, ls))
  {
    hide Pairs, ParsePairs, Until;
    var line := Line(name, value, ls);
    var tail := Labels(ls) + (" " + value);
    PairsEmptyExactlyWhen(ls);
    UntilStop(name, tail, {'{', ' '});
    assert line[|name|..] == tail;
    if ls == [] {
      assert tail == " " + value;
      assert tail[1..] == value;
    } else {
      assert tail == "{" + (Pairs(ls) + ("}" + (" " + value)));
      assert tail[1..] == Pairs(ls) + ("}" + (" " + value));
      PairsReadBack(ls, " " + value);
      assert (" " + value)[1..] == value;
    }
  }

  lemma PairsEmptyExactlyWhen(ls: seq<Label>)
    ensures Pairs(ls) == "" <==> ls == []
  {
  }

  /** No two samples share a line. */
  lemma LinesStayDistinct(a: Sample, b: Sample)
    requires '{' !in a.name && ' ' !in a.name && KeysOk(a.labels)
    requires '{' !in b.name && ' ' !in b.name && KeysOk(b.labels)
    ensures Line(a.name, a.value, a.labels) == Line(b.name, b.value, b.labels) <==> a == b
  {
    hide Line, ParseLine;
    LineReadsBack(a.name, a.value, a.labels);
    LineReadsBack(b.name, b.value, b.labels);
  }

  /** A sample stays on its line. */
  lemma {:induction false} PairsHaveNoNewline(ls: seq<Label>)
    requires forall i :: 0 <= i < |ls| ==> '\n' !in ls[i].key
    ensures '\n' !in Pairs(ls)
  {
    hide LabelValue;
    if ls != [] {
      NoNewline(ls[0].value);
      if |ls| > 1 { PairsHaveNoNewline(ls[1..]); }
    }
  }
}
