/** Content lines (`parseContentLine` in src/calendar-ical.ts): a name, parameters and a value. */
module ICalLine {
  import opened Text

  datatype ParsedLine = ParsedLine(name: string, params: map<string, string>, value: string)

  /** A part without '=' is ignored; a repeated key keeps its last value. */
  function AddParam(params: map<string, string>, part: string): map<string, string> {
    var eq := IndexOf(part, '=');
    if eq < 0 then params else params[Upper(part[..eq]) := part[eq + 1..]]
  }

  function ParamsOf(parts: seq<string>): map<string, string> {
    if parts == [] then map[]
    else AddParam(ParamsOf(parts[..|parts| - 1]), parts[|parts| - 1])
  }

  function ContentLineOf(line: string): ParsedLine {
    var colon := IndexOf(line, ':');
    if colon < 0 then ParsedLine(line, map[], "")
    else
      var before, value := line[..colon], line[colon + 1..];
      var semi := IndexOf(before, ';');
      if semi < 0 then ParsedLine(Upper(before), map[], value)
      else ParsedLine(Upper(before[..semi]), ParamsOf(Split(before[semi + 1..], ';')), value)
  }

  method ParseContentLine(line: string) returns (r: ParsedLine)
    ensures r == ContentLineOf(line)
  {
    var colon := IndexOf(line, ':');
    if colon < 0 {
      return ParsedLine(line, map[], "");
    }
    var before, value := line[..colon], line[colon + 1..];
    var semi := IndexOf(before, ';');
    if semi < 0 {
      return ParsedLine(Upper(before), map[], value);
    }
    var parts := Split(before[semi + 1..], ';');
    var params: map<string, string> := map[];
    for i := 0 to |parts|
      invariant params == ParamsOf(parts[..i])
    {
      var part := parts[i];
      var eq := IndexOf(part, '=');
      assert parts[..i + 1][..i] == parts[..i];
      if eq >= 0 {
        params := params[Upper(part[..eq]) := part[eq + 1..]];
      }
    }
    assert parts[..|parts|] == parts;
    r := ParsedLine(Upper(before[..semi]), params, value);
  }

  // ---------- what the exporter's lines parse to ----------

  predicate Plain(s: string) {
    ':' !in s && ';' !in s
  }

  /** A line without parameters. */
  lemma SimpleLine(name: string, value: string)
    requires Plain(name)
    ensures ContentLineOf(name + ":" + value) == ParsedLine(Upper(name), map[], value)
  {
    var line := name + ":" + value;
    IndexOfAt(name, ':', value);
    assert line[..|name|] == name && line[|name| + 1..] == value;
  }

  /** A line whose parameters are already split. */
  lemma LineWithParams(name: string, params: string, value: string)
    requires Plain(name) && ':' !in params
    ensures ContentLineOf(name + ";" + params + ":" + value)
         == ParsedLine(Upper(name), ParamsOf(Split(params, ';')), value)
  {
    hide ParamsOf, Split, Upper, IndexOf;
    var before := name + ";" + params;
    var line := before + ":" + value;
    IndexOfAt(before, ':', value);
    assert line[..|before|] == before && line[|before| + 1..] == value;
    IndexOfAt(name, ';', params);
    assert before[..|name|] == name && before[|name| + 1..] == params;
  }

  lemma OneParam(params: map<string, string>, key: string, value: string)
    requires '=' !in key
    ensures AddParam(params, key + "=" + value) == params[Upper(key) := value]
  {
    var part := key + "=" + value;
    IndexOfAt(key, '=', value);
    assert part[..|key|] == key && part[|key| + 1..] == value;
  }

  lemma ParamsOfOne(part: string)
    ensures ParamsOf([part]) == AddParam(map[], part)
  {
    assert [part][..0] == [];
    assert ParamsOf([]) == map[];
  }

  lemma ParamsOfTwo(a: string, b: string)
    ensures ParamsOf([a, b]) == AddParam(AddParam(map[], a), b)
  {
    assert [a, b][..1] == [a];
    ParamsOfOne(a);
  }

  /** A line with one parameter. */
  lemma OneParamLine(name: string, key: string, v: string, value: string)
    requires Plain(name) && Plain(key) && '=' !in key && Plain(v)
    ensures ContentLineOf(name + ";" + (key + "=" + v) + ":" + value)
         == ParsedLine(Upper(name), map[Upper(key) := v], value)
  {
    var part := key + "=" + v;
    LineWithParams(name, part, value);
    assert Split(part, ';') == [part];
    ParamsOfOne(part);
    OneParam(map[], key, v);
  }

  /** A line with two parameters. */
  lemma TwoParamLine(name: string, key1: string, v1: string, key2: string, v2: string, value: string)
    requires Plain(name) && Plain(key1) && Plain(key2) && Plain(v1) && Plain(v2)
    requires '=' !in key1 && '=' !in key2
    ensures ContentLineOf(name + ";" + (key1 + "=" + v1 + ";" + (key2 + "=" + v2)) + ":" + value)
         == ParsedLine(Upper(name), map[Upper(key1) := v1][Upper(key2) := v2], value)
  {
    var part1, part2 := key1 + "=" + v1, key2 + "=" + v2;
    LineWithParams(name, part1 + ";" + part2, value);
    SplitAt(part1, ';', part2);
    assert Split(part2, ';') == [part2];
    ParamsOfTwo(part1, part2);
    OneParam(map[], key1, v1);
    OneParam(map[Upper(key1) := v1], key2, v2);
  }
}
