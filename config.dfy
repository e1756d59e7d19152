/** The ketchfile notation (src/config.rs): a value tree, a cursor-driven
    parser over the text and the first-match lookup by key.

    The parser is specified twice: once by pure functions over the text and
    a cursor (ParseOneAt, ParseBodyAt, ParseItemsAt), and once by the class
    ConfigParser, whose methods mutate `current`, `line` and `output` the way
    the source does and are proved to compute what the functions say.
    The text is a sequence of characters (ASCII: one byte per character). */
module Config {
  import opened Errors

  datatype ConfigValue =
    | Ident(text: string)
    | Array(items: seq<ConfigValue>)
    | Pair(key: string, body: ConfigValue)
    | None

  /** The characters that end an identifier. */
  predicate IsTerminator(c: char) {
    c == '\n' || c == '\r' || c == ' ' || c == '\t' || c == ')'
  }

  /** Position in the text and the current line number. */
  datatype Cursor = Cursor(pos: nat, line: nat)

  /** A parsed value and the cursor after it. */
  datatype Parsed<T> = Parsed(value: T, next: Cursor)

  /** Where an identifier starting at `i` ends: the first terminator at or
      after `i`, or the end of the text. */
  function IdentEnd(s: string, i: nat): (j: nat)
    requires i <= |s|
    ensures i <= j <= |s|
    ensures j == |s| || IsTerminator(s[j])
    decreases |s| - i
  {
    if i == |s| || IsTerminator(s[i]) then i else IdentEnd(s, i + 1)
  }

  /** No character of an identifier is a terminator. */
  lemma {:induction false} IdentChars(s: string, i: nat)
    requires i <= |s|
    ensures forall k :: i <= k < IdentEnd(s, i) ==> !IsTerminator(s[k])
    decreases |s| - i
  {
    if i < |s| && !IsTerminator(s[i]) {
      IdentChars(s, i + 1);
    }
  }

  function Extend(acc: seq<ConfigValue>, r: Result<Parsed<seq<ConfigValue>>>): Result<Parsed<seq<ConfigValue>>> {
    match r
    case Ok(p) => Ok(Parsed(acc + p.value, p.next))
    case Err(e) => Err(e)
  }

  function Append(acc: seq<ConfigValue>, r: Result<seq<ConfigValue>>): Result<seq<ConfigValue>> {
    match r
    case Ok(vs) => Ok(acc + vs)
    case Err(e) => Err(e)
  }

  /** The `(` case of ParseOneAt, given the key and the parse of the body. */
  function PairOf(key: string, body: Result<Parsed<seq<ConfigValue>>>): Result<Parsed<ConfigValue>> {
    match body
    case Ok(b) => Ok(Parsed(Pair(key, Array(b.value)), Cursor(b.next.pos + 1, b.next.line)))
    case Err(e) => Err(e)
  }

  /** What one `parse_one` call yields from cursor `c`: whitespace gives
      `None` (a line break also counts the line), `(` gives a `Pair` of the
      key identifier and the forms up to the matching `)`, and any other
      character starts a bare identifier that keeps that character. */
  function ParseOneAt(s: string, c: Cursor): (r: Result<Parsed<ConfigValue>>)
    requires c.pos < |s|
    ensures r.Ok? ==> c.pos < r.value.next.pos <= |s|
    ensures r.Err? ==> r.error.MissingParen?
    decreases |s| - c.pos, 0
  {
    var ch := s[c.pos];
    var i := c.pos + 1;
    if ch == ' ' || ch == '\t' || ch == '\r' then
      Ok(Parsed(ConfigValue.None, Cursor(i, c.line)))
    else if ch == '\n' then
      Ok(Parsed(ConfigValue.None, Cursor(i, c.line + 1)))
    else if ch == '(' then
      var k := IdentEnd(s, i);
      PairOf(s[i..k], ParseBodyAt(s, Cursor(k, c.line)))
    else
      var k := IdentEnd(s, i);
      Ok(Parsed(Ident(s[c.pos..k]), Cursor(k, c.line)))
  }

  /** The forms of a `Pair` body, up to (not including) its `)`; reaching
      the end of the text first is the parser's only error. */
  function ParseBodyAt(s: string, c: Cursor): (r: Result<Parsed<seq<ConfigValue>>>)
    requires c.pos <= |s|
    ensures r.Ok? ==> c.pos <= r.value.next.pos < |s| && s[r.value.next.pos] == ')'
    ensures r.Err? ==> r.error.MissingParen?
    decreases |s| - c.pos, 1
  {
    if c.pos == |s| then Err(MissingParen(c.line))
    else if s[c.pos] == ')' then Ok(Parsed([], c))
    else
      match ParseOneAt(s, c)
      case Err(e) => Err(e)
      case Ok(one) => Extend(Keep(one.value), ParseBodyAt(s, one.next))
  }

  /** The top-level forms from `c` to the end of the text. */
  function ParseItemsAt(s: string, c: Cursor): (r: Result<seq<ConfigValue>>)
    requires c.pos <= |s|
    ensures r.Ok? ==> |r.value| <= |s| - c.pos
    ensures r.Err? ==> r.error.MissingParen?
    decreases |s| - c.pos
  {
    if c.pos == |s| then Ok([])
    else
      match ParseOneAt(s, c)
      case Err(e) => Err(e)
      case Ok(one) => Append(Keep(one.value), ParseItemsAt(s, one.next))
  }

  /** `None` results are dropped from every list the parser builds. */
  function Keep(v: ConfigValue): seq<ConfigValue> {
    if v == ConfigValue.None then [] else [v]
  }

  /** The parse of a whole text, from position 0 on line 1. */
  function ParseConfig(s: string): (r: Result<seq<ConfigValue>>)
    ensures r.Ok? ==> |r.value| <= |s|
    ensures r.Err? ==> r.error.MissingParen?
  {
    ParseItemsAt(s, Cursor(0, 1))
  }

  lemma {:induction false} ExtendNil(r: Result<Parsed<seq<ConfigValue>>>)
    ensures Extend([], r) == r
  {
    if r.Ok? {
      assert [] + r.value.value == r.value.value;
    }
  }

  lemma {:induction false} AppendAssoc(a: seq<ConfigValue>, b: seq<ConfigValue>, r: Result<seq<ConfigValue>>)
    ensures Append(a, Append(b, r)) == Append(a + b, r)
  {
    if r.Ok? {
      assert a + (b + r.value) == (a + b) + r.value;
    }
  }

  lemma {:induction false} ExtendAssoc(a: seq<ConfigValue>, b: seq<ConfigValue>, r: Result<Parsed<seq<ConfigValue>>>)
    ensures Extend(a, Extend(b, r)) == Extend(a + b, r)
  {
    if r.Ok? {
      assert a + (b + r.value.value) == (a + b) + r.value.value;
    }
  }

  class ConfigParser {
    var current: nat
    var line: nat
    const input: string
    var output: seq<ConfigValue>

    function At(): Cursor
      reads this
    {
      Cursor(current, line)
    }

    constructor (input: string)
      ensures this.input == input && current == 0 && line == 1 && output == []
    {
      this.input := input;
      current := 0;
      line := 1;
      output := [];
    }

    /** Consumes and returns the next character; the source unwraps `peek`,
        so its callers only call it before the end. */
    method Advance() returns (c: char)
      requires current < |input|
      modifies this`current
      ensures c == input[old(current)] && current == old(current) + 1
    {
      c := input[current];
      current := current + 1;
    }

    /** The character under the cursor, if any. */
    function Peek(): (r: Option<char>)
      reads this
      ensures r.Some? ==> current < |input| && r.value == input[current]
    {
      if current < |input| then Some(input[current]) else Option.None
    }

    predicate IsAtEnd()
      reads this
      ensures IsAtEnd() <==> Peek().None?
    {
      current >= |input|
    }

    /** Consumes characters up to the next terminator (or the end). */
    method ParseIdent() returns (out: string)
      requires current <= |input|
      modifies this`current
      ensures current == IdentEnd(input, old(current))
      ensures out == input[old(current)..current]
    {
      out := "";
      while !IsAtEnd() && !IsTerminator(Peek().value)
        invariant old(current) <= current <= |input|
        invariant IdentEnd(input, current) == IdentEnd(input, old(current))
        invariant out == input[old(current)..current]
        decreases |input| - current
      {
        var c := Advance();
        out := out + [c];
      }
    }

    method ParseOne() returns (r: Result<ConfigValue>)
      requires current < |input|
      modifies this`current, this`line
      ensures match ParseOneAt(input, old(At()))
        case Ok(p) => r == Ok(p.value) && At() == p.next
        case Err(e) => r == Err(e)
      decreases |input| - current
    {
      ghost var start := At();
      var c := Advance();
      if c == ' ' || c == '\t' || c == '\r' {
        assert ParseOneAt(input, start) == Ok(Parsed(ConfigValue.None, At()));
      } else if c == '\n' {
        line := line + 1;
        assert ParseOneAt(input, start) == Ok(Parsed(ConfigValue.None, At()));
      } else if c == '(' {
        var key := ParseIdent();
        var body := [];
        ghost var k := current;
        ghost var whole := ParseBodyAt(input, At());
        assert ParseOneAt(input, start) == PairOf(input[start.pos + 1..k], whole);
        ExtendNil(whole);
        while !IsAtEnd() && Peek() != Some(')')
          invariant start.pos < k <= current <= |input|
          invariant whole == Extend(body, ParseBodyAt(input, At()))
          decreases |input| - current
        {
          ghost var before := At();
          var val := ParseOne();
          if val.Err? {
            assert ParseBodyAt(input, before) == Err(val.error);
            return Err(val.error);
          }
          ghost var was := body;
          if val.value != ConfigValue.None {
            body := body + [val.value];
          }
          assert body == was + Keep(val.value);
          ExtendAssoc(was, Keep(val.value), ParseBodyAt(input, At()));
        }
        if Peek() != Some(')') {
          assert whole == Err(MissingParen(line));
          return Err(MissingParen(line));
        }
        assert body + [] == body;
        assert whole == Ok(Parsed(body, At()));
        var _ := Advance();
        return Ok(Pair(key, Array(body)));
      } else {
        var rest := ParseIdent();
        assert [c] + rest == input[start.pos..current];
        assert ParseOneAt(input, start) == Ok(Parsed(Ident([c] + rest), At()));
        return Ok(Ident([c] + rest));
      }
      return Ok(ConfigValue.None);
    }

    method Parse() returns (r: Result<seq<ConfigValue>>)
      requires current <= |input|
      modifies this`current, this`line, this`output
      ensures match ParseItemsAt(input, old(At()))
        case Ok(vs) => r == Ok(old(output) + vs) && output == r.value && current == |input|
        case Err(e) => r == Err(e)
    {
      while !IsAtEnd()
        invariant current <= |input|
        invariant Append(old(output), ParseItemsAt(input, old(At()))) == Append(output, ParseItemsAt(input, At()))
        decreases |input| - current
      {
        ghost var before := At();
        var val := ParseOne();
        if val.Err? {
          return Err(val.error);
        }
        ghost var was := output;
        if val.value != ConfigValue.None {
          output := output + [val.value];
        }
        assert output == was + Keep(val.value);
        AppendAssoc(was, Keep(val.value), ParseItemsAt(input, At()));
      }
      assert output + [] == output;
      return Ok(output);
    }
  }

  /** `parse_string`: a fresh parser over `s`, run to the end. */
  method ParseString(s: string) returns (r: Result<seq<ConfigValue>>)
    ensures r == ParseConfig(s)
  {
    var parser := new ConfigParser(s);
    ghost var expected := ParseConfig(s);
    if expected.Ok? {
      assert [] + expected.value == expected.value;
    }
    r := parser.Parse();
  }

  predicate HasKey(v: ConfigValue, key: string) {
    v.Pair? && v.key == key
  }

  /** `find_val`: the body of the first `Pair` whose key is `key`. */
  function FindVal(values: seq<ConfigValue>, key: string): (r: Option<ConfigValue>)
    ensures r.None? <==> forall i :: 0 <= i < |values| ==> !HasKey(values[i], key)
    ensures r.Some? ==> exists i :: 0 <= i < |values| && values[i] == Pair(key, r.value)
                                    && forall j :: 0 <= j < i ==> !HasKey(values[j], key)
    decreases |values|
  {
    if |values| == 0 then Option.None
    else if HasKey(values[0], key) then Some(values[0].body)
    else
      var r := FindVal(values[1..], key);
      assert forall i :: 1 <= i < |values| ==> values[i] == values[1..][i - 1];
      r
  }
}
