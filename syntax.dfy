/** Properties of the ketchfile notation (src/config.rs): what the parser
    can produce, how it counts lines, and a serializer that is its inverse on
    everything the parser produces. */
module Syntax {
  import opened Errors
  import opened Strings
  import opened Config

  /** No character of `t` ends an identifier. */
  predicate WordChars(t: string) {
    forall k :: 0 <= k < |t| ==> !IsTerminator(t[k])
  }

  predicate IsBlank(c: char) {
    c == ' ' || c == '\t' || c == '\r' || c == '\n'
  }

  /** An identifier as it can appear inside a `Pair` body. */
  predicate IsAtom(t: string) {
    |t| > 0 && t[0] != '(' && WordChars(t)
  }

  /** A top-level identifier: its first character only has to be neither
      blank nor `(`, so it may be `)`. */
  predicate IsTopAtom(t: string) {
    |t| > 0 && !IsBlank(t[0]) && t[0] != '(' && WordChars(t[1..])
  }

  /** A form that can appear in a `Pair` body. */
  predicate Nested(v: ConfigValue)
    decreases v
  {
    match v
    case Ident(t) => IsAtom(t)
    case Pair(k, body) => WordChars(k) && body.Array? && NestedAll(body.items)
    case _ => false
  }

  /** Every form of a body is `Nested`. */
  predicate NestedAll(items: seq<ConfigValue>)
    decreases items
  {
    |items| == 0 || (Nested(items[0]) && NestedAll(items[1..]))
  }

  lemma {:induction false} NestedAllIff(items: seq<ConfigValue>)
    ensures NestedAll(items) <==> forall i :: 0 <= i < |items| ==> Nested(items[i])
    decreases |items|
  {
    if |items| > 0 {
      NestedAllIff(items[1..]);
      assert forall i :: 1 <= i < |items| ==> items[i] == items[1..][i - 1];
    }
  }

  /** Every form of a list is `Top`. */
  predicate AllTop(vs: seq<ConfigValue>)
    decreases |vs|
  {
    |vs| == 0 || (Top(vs[0]) && AllTop(vs[1..]))
  }

  lemma {:induction false} AllTopIff(vs: seq<ConfigValue>)
    ensures AllTop(vs) <==> forall i :: 0 <= i < |vs| ==> Top(vs[i])
    decreases |vs|
  {
    if |vs| > 0 {
      AllTopIff(vs[1..]);
      assert forall i :: 1 <= i < |vs| ==> vs[i] == vs[1..][i - 1];
    }
  }

  /** A form that can appear at the top level. */
  predicate Top(v: ConfigValue) {
    match v
    case Ident(t) => IsTopAtom(t)
    case Pair(_, _) => Nested(v)
    case _ => false
  }

  /** The text of one form. */
  function Show(v: ConfigValue): string
    decreases v, 1
  {
    match v
    case Ident(t) => t
    case Pair(k, body) => "(" + k + (if body.Array? then ShowBody(body.items) else "") + ")"
    case Array(items) => ShowBody(items)
    case None => ""
  }

  /** The forms of a body, each preceded by a space. */
  function ShowBody(items: seq<ConfigValue>): string
    decreases items, 0
  {
    if |items| == 0 then "" else " " + Show(items[0]) + ShowBody(items[1..])
  }

  /** A ketchfile holding `vs`, one top-level form per line. */
  function Serialize(vs: seq<ConfigValue>): string
    decreases |vs|
  {
    if |vs| == 0 then "" else Show(vs[0]) + "\n" + Serialize(vs[1..])
  }

  /** `s` holds `t` at position `i`, character by character.
      Contracts below write `HoldsAt(..) == true` (and likewise for `Top`,
      `AllTop`): compared as a value, the predicate is not unfolded into its
      conjuncts at every call, which keeps the proofs small. */
  predicate HoldsAt(s: string, i: nat, t: string)
    decreases |t|
  {
    i + |t| <= |s| && (|t| == 0 || (s[i] == t[0] && HoldsAt(s, i + 1, t[1..])))
  }

  /** `HoldsAt` says the same as a slice of `s`. */
  lemma {:induction false} HoldsAtSlice(s: string, i: nat, t: string)
    ensures HoldsAt(s, i, t) <==> i + |t| <= |s| && s[i..i + |t|] == t
    decreases |t|
  {
    if |t| > 0 {
      HoldsAtSlice(s, i + 1, t[1..]);
      if i + |t| <= |s| {
        assert s[i..i + |t|] == [s[i]] + s[i + 1..i + |t|];
        assert t == [t[0]] + t[1..];
      }
    }
  }

  lemma {:induction false} HoldsAtSplit(s: string, i: nat, a: string, b: string)
    requires HoldsAt(s, i, a + b)
    ensures HoldsAt(s, i, a) && HoldsAt(s, i + |a|, b)
    decreases |a|
  {
    if |a| == 0 {
      assert a + b == b;
    } else {
      assert (a + b)[1..] == a[1..] + b;
      HoldsAtSplit(s, i + 1, a[1..], b);
    }
  }

  lemma {:induction false} IdentEndAt(s: string, i: nat, t: string)
    requires HoldsAt(s, i, t) && WordChars(t)
    requires i + |t| == |s| || IsTerminator(s[i + |t|])
    ensures IdentEnd(s, i) == i + |t|
    decreases |t|
  {
    if |t| > 0 {
      assert WordChars(t[1..]) by {
        assert forall k :: 0 <= k < |t| - 1 ==> t[1..][k] == t[k + 1];
      }
      IdentEndAt(s, i + 1, t[1..]);
    }
  }

  lemma {:induction false} NestedIsTop(v: ConfigValue)
    requires Nested(v)
    ensures Top(v)
  {
    if v.Ident? {
      assert v.text[1..] == v.text[1..];
      assert forall k :: 0 <= k < |v.text[1..]| ==> v.text[1..][k] == v.text[k + 1];
    }
  }

  lemma {:induction false} OneBlank(s: string, c: Cursor)
    requires c.pos < |s| && IsBlank(s[c.pos])
    ensures ParseOneAt(s, c)
         == Ok(Parsed(ConfigValue.None, Cursor(c.pos + 1, if s[c.pos] == '\n' then c.line + 1 else c.line)))
  {
  }

  lemma {:induction false} OneWord(s: string, c: Cursor)
    requires c.pos < |s| && !IsBlank(s[c.pos]) && s[c.pos] != '('
    ensures ParseOneAt(s, c)
         == Ok(Parsed(Ident(s[c.pos..IdentEnd(s, c.pos + 1)]), Cursor(IdentEnd(s, c.pos + 1), c.line)))
  {
  }

  lemma {:induction false} OnePair(s: string, c: Cursor)
    requires c.pos < |s| && s[c.pos] == '('
    ensures ParseOneAt(s, c)
         == PairOf(s[c.pos + 1..IdentEnd(s, c.pos + 1)], ParseBodyAt(s, Cursor(IdentEnd(s, c.pos + 1), c.line)))
  {
  }

  lemma {:induction false} BodyStep(s: string, c: Cursor)
    requires c.pos < |s| && s[c.pos] != ')'
    ensures ParseOneAt(s, c).Err? ==> ParseBodyAt(s, c) == Err(ParseOneAt(s, c).error)
    ensures ParseOneAt(s, c).Ok? ==> var p := ParseOneAt(s, c).value;
      ParseBodyAt(s, c) == Extend(Keep(p.value), ParseBodyAt(s, p.next))
  {
  }

  lemma {:induction false} ItemsStep(s: string, c: Cursor)
    requires c.pos < |s|
    ensures ParseOneAt(s, c).Err? ==> ParseItemsAt(s, c) == Err(ParseOneAt(s, c).error)
    ensures ParseOneAt(s, c).Ok? ==> var p := ParseOneAt(s, c).value;
      ParseItemsAt(s, c) == Append(Keep(p.value), ParseItemsAt(s, p.next))
  {
  }

  /** A line break between top-level forms only counts the line. */
  lemma {:induction false} ItemsNewline(s: string, c: Cursor)
    requires c.pos < |s| && s[c.pos] == '\n'
    ensures ParseItemsAt(s, c) == ParseItemsAt(s, Cursor(c.pos + 1, c.line + 1))
  {
    var next := Cursor(c.pos + 1, c.line + 1);
    OneBlank(s, c);
    ItemsStep(s, c);
    assert Keep(ConfigValue.None) == [];
    var rest := ParseItemsAt(s, next);
    if rest.Ok? {
      assert [] + rest.value == rest.value;
    }
  }

  /** Parsing the text of a form, followed by a terminator when it is an
      identifier, gives that form back on the same line. */
  lemma {:induction false} ParseOneShow(s: string, c: Cursor, v: ConfigValue)
    requires Top(v) == true && HoldsAt(s, c.pos, Show(v)) == true
    requires v.Ident? ==> c.pos + |Show(v)| == |s| || IsTerminator(s[c.pos + |Show(v)|])
    ensures c.pos < |s|
    ensures ParseOneAt(s, c) == Ok(Parsed(v, Cursor(c.pos + |Show(v)|, c.line)))
    decreases v, 1
  {
    match v
    case Ident(t) =>
      IdentShow(s, c, t);
    case Pair(k, body) =>
      PairStep(s, c, k, body.items);
      ShowPairLength(k, body.items);
      ParseBodyShow(s, Cursor(c.pos + 1 + |k|, c.line), body.items);
  }

  /** Parsing the text of an identifier, followed by a terminator, gives it back. */
  lemma {:induction false} IdentShow(s: string, c: Cursor, t: string)
    requires IsTopAtom(t) && HoldsAt(s, c.pos, t)
    requires c.pos + |t| == |s| || IsTerminator(s[c.pos + |t|])
    ensures c.pos < |s|
    ensures ParseOneAt(s, c) == Ok(Parsed(Ident(t), Cursor(c.pos + |t|, c.line)))
  {
    IdentEndAt(s, c.pos + 1, t[1..]);
    HoldsAtSlice(s, c.pos, t);
    OneWord(s, c);
  }

  /** The text of a `Pair` opens with `(` and its key, then holds its body. */
  lemma {:induction false} PairStep(s: string, c: Cursor, k: string, items: seq<ConfigValue>)
    requires WordChars(k) && HoldsAt(s, c.pos, Show(Pair(k, Array(items))))
    ensures c.pos < |s| && HoldsAt(s, c.pos + 1 + |k|, ShowBody(items) + ")")
    ensures ParseOneAt(s, c) == PairOf(k, ParseBodyAt(s, Cursor(c.pos + 1 + |k|, c.line)))
  {
    PairText(s, c.pos, k, items);
    IdentEndAt(s, c.pos + 1, k);
    OnePair(s, c);
  }

  lemma {:induction false} ShowPairLength(k: string, items: seq<ConfigValue>)
    ensures |Show(Pair(k, Array(items)))| == 1 + |k| + |ShowBody(items)| + 1
  {
  }

  /** Where the pieces of the text of `Pair(k, Array(items))` lie. */
  lemma {:induction false} PairText(s: string, i: nat, k: string, items: seq<ConfigValue>)
    requires HoldsAt(s, i, Show(Pair(k, Array(items))))
    ensures i + 1 + |k| < |s| && s[i] == '(' && HoldsAt(s, i + 1, k) && s[i + 1..i + 1 + |k|] == k
    ensures HoldsAt(s, i + 1 + |k|, ShowBody(items) + ")")
    ensures IsTerminator(s[i + 1 + |k|])
  {
    var b := ShowBody(items) + ")";
    assert Show(Pair(k, Array(items))) == "(" + (k + b);
    HoldsAtSplit(s, i, "(", k + b);
    HoldsAtSplit(s, i + 1, k, b);
    HoldsAtHead(s, i, "(");
    HoldsAtHead(s, i + 1 + |k|, b);
    HoldsAtSlice(s, i + 1, k);
    if |items| > 0 {
      assert b[0] == ' ';
    }
  }

  lemma {:induction false} HoldsAtHead(s: string, i: nat, t: string)
    requires HoldsAt(s, i, t) && |t| > 0
    ensures i < |s| && s[i] == t[0]
  {
  }

  /** The text of a non-empty body, followed by `)`, splits at its first form. */
  lemma {:induction false} BodySplit(s: string, i: nat, items: seq<ConfigValue>)
    requires |items| > 0 && HoldsAt(s, i, ShowBody(items) + ")")
    ensures s[i] == ' ' && HoldsAt(s, i + 1, Show(items[0]))
    ensures HoldsAt(s, i + 1 + |Show(items[0])|, ShowBody(items[1..]) + ")")
  {
    var rest := ShowBody(items[1..]) + ")";
    assert ShowBody(items) + ")" == " " + (Show(items[0]) + rest);
    HoldsAtSplit(s, i, " ", Show(items[0]) + rest);
    HoldsAtHead(s, i, " ");
    HoldsAtSplit(s, i + 1, Show(items[0]), rest);
  }

  lemma {:induction false} ShowBodyLength(items: seq<ConfigValue>)
    requires |items| > 0
    ensures |ShowBody(items)| == 1 + |Show(items[0])| + |ShowBody(items[1..])|
  {
    assert ShowBody(items) == " " + Show(items[0]) + ShowBody(items[1..]);
  }

  /** Where the pieces of the text of a non-empty body lie. */
  lemma {:induction false} BodyText(s: string, i: nat, items: seq<ConfigValue>)
    requires |items| > 0 && Nested(items[0]) && HoldsAt(s, i, ShowBody(items) + ")") == true
    ensures s[i] == ' ' && HoldsAt(s, i + 1, Show(items[0])) == true
    ensures HoldsAt(s, i + 1 + |Show(items[0])|, ShowBody(items[1..]) + ")") == true
    ensures IsTerminator(s[i + 1 + |Show(items[0])|])
    ensures s[i + 1] != ')'
  {
    var v := items[0];
    var rest := ShowBody(items[1..]) + ")";
    BodySplit(s, i, items);
    HoldsAtHead(s, i + 1 + |Show(v)|, rest);
    if |items[1..]| > 0 {
      assert rest[0] == ' ';
    }
    HoldsAtHead(s, i + 1, Show(v));
    if v.Pair? {
      assert Show(v)[0] == '(';
    }
  }

  /** A blank and then a form that is not `)` continue a body with that form. */
  lemma {:induction false} BodyCons(s: string, c: Cursor, v: ConfigValue, n: Cursor)
    requires c.pos + 1 < |s| && s[c.pos] == ' ' && s[c.pos + 1] != ')'
    requires ParseOneAt(s, Cursor(c.pos + 1, c.line)) == Ok(Parsed(v, n)) && v != ConfigValue.None
    ensures n.pos <= |s| && ParseBodyAt(s, c) == Extend([v], ParseBodyAt(s, n))
  {
    var next := Cursor(c.pos + 1, c.line);
    OneBlank(s, c);
    BodyStep(s, c);
    ExtendNil(ParseBodyAt(s, next));
    BodyStep(s, next);
    assert Keep(v) == [v];
  }

  /** A body that goes on with a blank and the text of a nested form keeps
      that form at its head. */
  lemma {:induction false} BodyHead(s: string, c: Cursor, v: ConfigValue)
    requires Nested(v) && c.pos + 1 + |Show(v)| < |s| && s[c.pos] == ' ' && s[c.pos + 1] != ')'
    requires HoldsAt(s, c.pos + 1, Show(v)) == true && IsTerminator(s[c.pos + 1 + |Show(v)|])
    ensures ParseBodyAt(s, c) == Extend([v], ParseBodyAt(s, Cursor(c.pos + 1 + |Show(v)|, c.line)))
    decreases v, 2
  {
    NestedIsTop(v);
    ParseOneShow(s, Cursor(c.pos + 1, c.line), v);
    BodyCons(s, c, v, Cursor(c.pos + 1 + |Show(v)|, c.line));
  }

  lemma {:induction false} BodyNil(s: string, c: Cursor, items: seq<ConfigValue>)
    requires |items| == 0 && HoldsAt(s, c.pos, ShowBody(items) + ")")
    ensures ParseBodyAt(s, c) == Ok(Parsed(items, Cursor(c.pos + |ShowBody(items)|, c.line)))
  {
    assert ShowBody(items) + ")" == ")";
    HoldsAtHead(s, c.pos, ")");
  }

  /** Parsing the text of a body, followed by `)`, gives that body back. */
  lemma {:induction false} ParseBodyShow(s: string, c: Cursor, items: seq<ConfigValue>)
    requires NestedAll(items)
    requires HoldsAt(s, c.pos, ShowBody(items) + ")") == true
    ensures ParseBodyAt(s, c) == Ok(Parsed(items, Cursor(c.pos + |ShowBody(items)|, c.line)))
    decreases items, 2
  {
    if |items| == 0 {
      BodyNil(s, c, items);
    } else {
      BodyText(s, c.pos, items);
      BodyHead(s, c, items[0]);
      ParseBodyShow(s, Cursor(c.pos + 1 + |Show(items[0])|, c.line), items[1..]);
      BodyJoin(ParseBodyAt(s, c), ParseBodyAt(s, Cursor(c.pos + 1 + |Show(items[0])|, c.line)), items, c.pos, c.line);
    }
  }

  /** The body's first form and the parse of the rest make up the whole body. */
  lemma {:induction false} BodyJoin(r: Result<Parsed<seq<ConfigValue>>>, rest: Result<Parsed<seq<ConfigValue>>>,
                                    items: seq<ConfigValue>, pos: nat, line: nat)
    requires |items| > 0 && r == Extend([items[0]], rest)
    requires rest == Ok(Parsed(items[1..], Cursor(pos + 1 + |Show(items[0])| + |ShowBody(items[1..])|, line)))
    ensures r == Ok(Parsed(items, Cursor(pos + |ShowBody(items)|, line)))
  {
    ShowBodyLength(items);
    assert [items[0]] + items[1..] == items;
  }

  /** A serialized list is its first form's text, a line break and the rest. */
  lemma {:induction false} ItemsText(s: string, c: Cursor, vs: seq<ConfigValue>)
    requires |vs| > 0 && AllTop(vs) == true
    requires c.pos + |Serialize(vs)| == |s| && HoldsAt(s, c.pos, Serialize(vs)) == true
    ensures Top(vs[0]) == true && AllTop(vs[1..]) == true
    ensures var after := c.pos + |Show(vs[0])|;
      HoldsAt(s, c.pos, Show(vs[0])) == true && after < |s| && s[after] == '\n'
      && HoldsAt(s, after + 1, Serialize(vs[1..])) == true && after + 1 + |Serialize(vs[1..])| == |s|
  {
    var after := c.pos + |Show(vs[0])|;
    var rest := Serialize(vs[1..]);
    assert Serialize(vs) == Show(vs[0]) + ("\n" + rest);
    HoldsAtSplit(s, c.pos, Show(vs[0]), "\n" + rest);
    HoldsAtSplit(s, after, "\n", rest);
    HoldsAtHead(s, after, "\n");
  }

  /** A form that is not `None`, followed by a line break, is kept at the
      head of the top-level list, and parsing goes on on the next line. */
  lemma {:induction false} ItemsLine(s: string, c: Cursor, v: ConfigValue, n: Cursor)
    requires c.pos < |s| && ParseOneAt(s, c) == Ok(Parsed(v, n)) && v != ConfigValue.None
    requires n.pos < |s| && s[n.pos] == '\n'
    ensures ParseItemsAt(s, c) == Append([v], ParseItemsAt(s, Cursor(n.pos + 1, n.line + 1)))
  {
    ItemsStep(s, c);
    assert Keep(v) == [v];
    ItemsNewline(s, n);
  }

  /** Parsing the first line of a serialized list gives its form back, and
      the rest of the list follows on the next line. */
  lemma {:induction false} ItemsHead(s: string, c: Cursor, v: ConfigValue)
    requires Top(v) == true && HoldsAt(s, c.pos, Show(v)) == true
    requires c.pos + |Show(v)| < |s| && s[c.pos + |Show(v)|] == '\n'
    ensures ParseItemsAt(s, c) == Append([v], ParseItemsAt(s, Cursor(c.pos + |Show(v)| + 1, c.line + 1)))
  {
    var n := Cursor(c.pos + |Show(v)|, c.line);
    assert ParseOneAt(s, c) == Ok(Parsed(v, n)) by {
      ParseOneShow(s, c, v);
    }
    ItemsLine(s, c, v, n);
  }

  /** Parsing a serialized list of forms, to the end of the text, gives it back. */
  lemma {:induction false} ParseItemsShow(s: string, c: Cursor, vs: seq<ConfigValue>)
    requires AllTop(vs) == true
    requires c.pos + |Serialize(vs)| == |s| && HoldsAt(s, c.pos, Serialize(vs)) == true
    ensures ParseItemsAt(s, c) == Ok(vs)
    decreases |vs|
  {
    if |vs| > 0 {
      ItemsText(s, c, vs);
      ItemsHead(s, c, vs[0]);
      var next := Cursor(c.pos + |Show(vs[0])| + 1, c.line + 1);
      assert AllTop(vs[1..]) == true;
      assert next.pos + |Serialize(vs[1..])| == |s|;
      assert HoldsAt(s, next.pos, Serialize(vs[1..])) == true;
      ParseItemsShow(s, next, vs[1..]);
      ItemsJoin(ParseItemsAt(s, c), ParseItemsAt(s, next), vs);
    } else {
      assert ParseItemsAt(s, c) == Ok([]);
    }
  }

  /** The first form and the parse of the rest make up the whole list. */
  lemma {:induction false} ItemsJoin(r: Result<seq<ConfigValue>>, rest: Result<seq<ConfigValue>>, vs: seq<ConfigValue>)
    requires |vs| > 0 && r == Append([vs[0]], rest) && rest == Ok(vs[1..])
    ensures r == Ok(vs)
  {
    assert [vs[0]] + vs[1..] == vs;
  }

  /** Serializing any list of top-level forms and parsing the text gives the
      list back. */
  lemma {:induction false} RoundTrip(vs: seq<ConfigValue>)
    requires forall i :: 0 <= i < |vs| ==> Top(vs[i])
    ensures ParseConfig(Serialize(vs)) == Ok(vs)
  {
    var s := Serialize(vs);
    assert s[0..|s|] == s;
    HoldsAtSlice(s, 0, s);
    AllTopIff(vs);
    ParseItemsShow(s, Cursor(0, 1), vs);
  }

  /** Every form the parser returns at the top level is a `Top` form:
      never `None`, only identifiers and pairs, and every pair body an
      `Array` of `Nested` forms. */
  lemma {:induction false} OneShape(s: string, c: Cursor)
    requires c.pos < |s|
    ensures ParseOneAt(s, c).Ok? ==> var v := ParseOneAt(s, c).value.value;
      (v == ConfigValue.None || Top(v)) && (s[c.pos] != ')' ==> v == ConfigValue.None || Nested(v))
    decreases |s| - c.pos, 0
  {
    var ch := s[c.pos];
    if IsBlank(ch) {
      OneBlank(s, c);
    } else if ch == '(' {
      var k := IdentEnd(s, c.pos + 1);
      IdentChars(s, c.pos + 1);
      OnePair(s, c);
      BodyShape(s, Cursor(k, c.line));
      var key := s[c.pos + 1..k];
      assert WordChars(key) by {
        assert forall j :: 0 <= j < |key| ==> key[j] == s[c.pos + 1 + j];
      }
    } else {
      var k := IdentEnd(s, c.pos + 1);
      IdentChars(s, c.pos + 1);
      OneWord(s, c);
      var t := s[c.pos..k];
      assert t[0] == ch;
      assert WordChars(t[1..]) by {
        assert forall j :: 0 <= j < |t| - 1 ==> t[1..][j] == s[c.pos + 1 + j];
      }
      if ch != ')' {
        assert forall j :: 0 < j < |t| ==> t[j] == t[1..][j - 1];
      }
    }
  }

  lemma {:induction false} BodyShape(s: string, c: Cursor)
    requires c.pos <= |s|
    ensures ParseBodyAt(s, c).Ok? ==> NestedAll(ParseBodyAt(s, c).value.value)
    decreases |s| - c.pos, 1
  {
    if c.pos < |s| && s[c.pos] != ')' {
      BodyStep(s, c);
      OneShape(s, c);
      var one := ParseOneAt(s, c);
      if one.Ok? {
        var next := one.value.next;
        BodyShape(s, next);
        var rest := ParseBodyAt(s, next);
        if rest.Ok? && one.value.value != ConfigValue.None {
          var items := [one.value.value] + rest.value.value;
          assert Keep(one.value.value) == [one.value.value];
          assert ParseBodyAt(s, c).value.value == items;
          assert items[1..] == rest.value.value;
          assert Nested(items[0]);
        } else if rest.Ok? {
          assert [] + rest.value.value == rest.value.value;
        }
      }
    }
  }

  lemma {:induction false} ItemsShape(s: string, c: Cursor)
    requires c.pos <= |s|
    ensures ParseItemsAt(s, c).Ok? ==> var vs := ParseItemsAt(s, c).value;
      forall i :: 0 <= i < |vs| ==> Top(vs[i])
    decreases |s| - c.pos
  {
    if c.pos < |s| {
      ItemsStep(s, c);
      OneShape(s, c);
      var one := ParseOneAt(s, c);
      if one.Ok? {
        ItemsShape(s, one.value.next);
      }
    }
  }

  /** What a successful parse returns: top-level forms that are identifiers
      or pairs, never `None`, each pair's body an `Array` of nested forms. */
  lemma {:induction false} ParsedForms(s: string)
    requires ParseConfig(s).Ok?
    ensures forall i :: 0 <= i < |ParseConfig(s).value| ==> Top(ParseConfig(s).value[i])
  {
    ItemsShape(s, Cursor(0, 1));
    var vs := ParseConfig(s).value;
    assert vs == ParseItemsAt(s, Cursor(0, 1)).value;
  }

  /** Parsing is idempotent: re-serializing a parse result and parsing the
      text again gives the same forms. */
  lemma {:induction false} ParseIdempotent(s: string)
    requires ParseConfig(s).Ok?
    ensures ParseConfig(Serialize(ParseConfig(s).value)) == ParseConfig(s)
  {
    ParsedForms(s);
    RoundTrip(ParseConfig(s).value);
  }

  /** The number of line breaks among `s[a..b]`. */
  function LineBreaks(s: string, a: nat, b: nat): nat
    requires a <= b <= |s|
    decreases b - a
  {
    if a == b then 0 else (if s[a] == '\n' then 1 else 0) + LineBreaks(s, a + 1, b)
  }

  lemma {:induction false} LineBreaksSplit(s: string, a: nat, b: nat, d: nat)
    requires a <= b <= d <= |s|
    ensures LineBreaks(s, a, d) == LineBreaks(s, a, b) + LineBreaks(s, b, d)
    decreases b - a
  {
    if a < b {
      LineBreaksSplit(s, a + 1, b, d);
    }
  }

  lemma {:induction false} LineBreaksNewlines(s: string, a: nat)
    requires a <= |s|
    ensures LineBreaks(s, a, |s|) == Newlines(s[a..])
    decreases |s| - a
  {
    if a < |s| {
      assert s[a..][1..] == s[a + 1..];
      LineBreaksNewlines(s, a + 1);
    }
  }

  lemma {:induction false} LineBreaksNone(s: string, a: nat, b: nat)
    requires a <= b <= |s| && forall k :: a <= k < b ==> s[k] != '\n'
    ensures LineBreaks(s, a, b) == 0
    decreases b - a
  {
    if a < b {
      LineBreaksNone(s, a + 1, b);
    }
  }

  /** An identifier holds no line break. */
  lemma {:induction false} IdentBreaks(s: string, i: nat)
    requires i <= |s|
    ensures LineBreaks(s, i, IdentEnd(s, i)) == 0
    decreases |s| - i
  {
    if i < |s| && !IsTerminator(s[i]) {
      IdentBreaks(s, i + 1);
    }
  }

  /** The character that starts a form and the identifier after it hold no
      line break. */
  lemma {:induction false} HeadLines(s: string, i: nat)
    requires i < |s| && s[i] != '\n'
    ensures LineBreaks(s, i, IdentEnd(s, i + 1)) == 0
  {
    IdentBreaks(s, i + 1);
  }

  /** The line counter advances by exactly the line breaks consumed, and the
      error names the line reached at the end of the text. */
  lemma {:induction false} OneLines(s: string, c: Cursor)
    requires c.pos < |s|
    ensures ParseOneAt(s, c).Ok? ==> var n := ParseOneAt(s, c).value.next;
      n.line == c.line + LineBreaks(s, c.pos, n.pos)
    ensures ParseOneAt(s, c).Err? ==> ParseOneAt(s, c).error == MissingParen(c.line + LineBreaks(s, c.pos, |s|))
    decreases |s| - c.pos, 1
  {
    var ch := s[c.pos];
    if IsBlank(ch) {
      OneBlank(s, c);
    } else if ch == '(' {
      PairLines(s, c);
    } else {
      HeadLines(s, c.pos);
      OneWord(s, c);
    }
  }

  /** The `(` case of OneLines. */
  lemma {:induction false} PairLines(s: string, c: Cursor)
    requires c.pos < |s| && s[c.pos] == '('
    ensures ParseOneAt(s, c).Ok? ==> var n := ParseOneAt(s, c).value.next;
      n.line == c.line + LineBreaks(s, c.pos, n.pos)
    ensures ParseOneAt(s, c).Err? ==> ParseOneAt(s, c).error == MissingParen(c.line + LineBreaks(s, c.pos, |s|))
    decreases |s| - c.pos, 0
  {
    var k := IdentEnd(s, c.pos + 1);
    var body := Cursor(k, c.line);
    HeadLines(s, c.pos);
    OnePair(s, c);
    BodyLines(s, body);
    var r := ParseBodyAt(s, body);
    if r.Ok? {
      var e := r.value.next.pos;
      LineBreaksSplit(s, c.pos, k, e + 1);
      LineBreaksSplit(s, k, e, e + 1);
    } else {
      LineBreaksSplit(s, c.pos, k, |s|);
    }
  }

  lemma {:induction false} BodyLines(s: string, c: Cursor)
    requires c.pos <= |s|
    ensures ParseBodyAt(s, c).Ok? ==> var n := ParseBodyAt(s, c).value.next;
      n.line == c.line + LineBreaks(s, c.pos, n.pos)
    ensures ParseBodyAt(s, c).Err? ==> ParseBodyAt(s, c).error == MissingParen(c.line + LineBreaks(s, c.pos, |s|))
    decreases |s| - c.pos, 2
  {
    if c.pos < |s| && s[c.pos] != ')' {
      BodyStep(s, c);
      OneLines(s, c);
      var one := ParseOneAt(s, c);
      if one.Ok? {
        var m := one.value.next;
        BodyLines(s, m);
        var rest := ParseBodyAt(s, m);
        if rest.Ok? {
          LineBreaksSplit(s, c.pos, m.pos, rest.value.next.pos);
        } else {
          LineBreaksSplit(s, c.pos, m.pos, |s|);
        }
      }
    }
  }

  lemma {:induction false} ItemsLines(s: string, c: Cursor)
    requires c.pos <= |s|
    ensures ParseItemsAt(s, c).Err? ==> ParseItemsAt(s, c).error == MissingParen(c.line + LineBreaks(s, c.pos, |s|))
    decreases |s| - c.pos
  {
    if c.pos < |s| {
      ItemsStep(s, c);
      OneLines(s, c);
      var one := ParseOneAt(s, c);
      if one.Ok? {
        var m := one.value.next;
        ItemsLines(s, m);
        LineBreaksSplit(s, c.pos, m.pos, |s|);
      }
    }
  }

  /** The only error is the unclosed `(`, reported on the line reached at
      the end of the text: one more than the number of line breaks. */
  lemma {:induction false} ErrorLine(s: string)
    requires ParseConfig(s).Err?
    ensures ParseConfig(s).error == MissingParen(1 + Newlines(s))
  {
    ItemsLines(s, Cursor(0, 1));
    LineBreaksNewlines(s, 0);
    assert s[0..] == s;
  }

  /** A `(` with no `)` anywhere after it cannot be closed: parsing the form
      fails, naming the line reached at the end of the text. */
  lemma {:induction false} UnclosedFails(s: string, c: Cursor)
    requires c.pos < |s| && s[c.pos] == '('
    requires forall j :: c.pos < j < |s| ==> s[j] != ')'
    ensures ParseOneAt(s, c) == Err(MissingParen(c.line + LineBreaks(s, c.pos, |s|)))
  {
    OnePair(s, c);
    OneLines(s, c);
  }

  /** A last form running to the end of the text. */
  lemma {:induction false} LastForm(s: string, c: Cursor, q: ConfigValue)
    requires Top(q) && HoldsAt(s, c.pos, Show(q)) && c.pos + |Show(q)| == |s|
    ensures ParseItemsAt(s, c) == Ok([q])
  {
    ItemsStep(s, c);
    ParseOneShow(s, c, q);
    assert ParseItemsAt(s, Cursor(|s|, c.line)) == Ok([]);
    assert Keep(q) == [q] && [q] + [] == [q];
  }

  /** Two pairs on two lines, the second without a final line break. */
  lemma {:induction false} TwoLines(s: string, p: ConfigValue, q: ConfigValue)
    requires p.Pair? && q.Pair? && Nested(p) && Nested(q)
    requires s == Show(p) + "\n" + Show(q)
    ensures ParseConfig(s) == Ok([p, q])
  {
    var i := |Show(p)|;
    assert s[i..] == "\n" + Show(q);
    SecondLine(s, i, q);
    assert ParseOneAt(s, Cursor(0, 1)) == Ok(Parsed(p, Cursor(i, 1))) by {
      assert s[0..i] == Show(p);
      HoldsAtSlice(s, 0, Show(p));
      NestedIsTop(p);
      ParseOneShow(s, Cursor(0, 1), p);
    }
    ItemsStep(s, Cursor(0, 1));
    assert Keep(p) == [p];
    assert [p] + [q] == [p, q];
  }

  /** The line break after the first form, then the second form to the end. */
  lemma {:induction false} SecondLine(s: string, i: nat, q: ConfigValue)
    requires q.Pair? && Nested(q) && i < |s| && s[i..] == "\n" + Show(q)
    ensures ParseItemsAt(s, Cursor(i, 1)) == Ok([q])
  {
    assert s[i] == s[i..][0];
    assert s[i + 1..|s|] == Show(q) by {
      assert s[i + 1..|s|] == s[i..][1..];
    }
    HoldsAtSlice(s, i + 1, Show(q));
    NestedIsTop(q);
    LastForm(s, Cursor(i + 1, 2), q);
    ItemsNewline(s, Cursor(i, 1));
  }

  lemma {:induction false} JspForm()
    ensures Show(Pair("jsp", Array([Ident("a"), Ident("b"), Ident("c")]))) == "(jsp a b c)"
    ensures Nested(Pair("jsp", Array([Ident("a"), Ident("b"), Ident("c")])))
  {
    JspBody();
    assert NestedAll([Ident("c")]);
    assert NestedAll([Ident("b"), Ident("c")]);
  }

  lemma {:induction false} JspBody()
    ensures ShowBody([Ident("a"), Ident("b"), Ident("c")]) == " a b c"
  {
    assert ShowBody([Ident("c")]) == " c";
    assert ShowBody([Ident("b"), Ident("c")]) == " b c";
  }

  lemma {:induction false} NonForm()
    ensures Show(Pair("non", Array([Ident("plus")]))) == "(non plus)"
    ensures Nested(Pair("non", Array([Ident("plus")])))
  {
  }

  /** `(jsp a b c)` and `(non plus)` on two lines parse to two pairs. */
  lemma {:induction false} ParseExample()
    ensures ParseConfig("(jsp a b c)\n(non plus)")
         == Ok([Pair("jsp", Array([Ident("a"), Ident("b"), Ident("c")])),
                Pair("non", Array([Ident("plus")]))])
  {
    JspForm();
    NonForm();
    TwoLines("(jsp a b c)\n(non plus)",
             Pair("jsp", Array([Ident("a"), Ident("b"), Ident("c")])),
             Pair("non", Array([Ident("plus")])));
  }

  /** A text that opens a form on its first line and never closes it, with
      no line break, fails on line 1. */
  lemma {:induction false} UnclosedTop(s: string)
    requires |s| > 0 && s[0] == '('
    requires forall j :: 0 <= j < |s| ==> s[j] != ')' && s[j] != '\n'
    ensures ParseConfig(s) == Err(MissingParen(1))
  {
    UnclosedFails(s, Cursor(0, 1));
    ItemsStep(s, Cursor(0, 1));
    LineBreaksNone(s, 0, |s|);
  }

  /** A form left open fails on line 1. */
  lemma {:induction false} UnclosedExample()
    ensures ParseConfig("(jsp a b") == Err(MissingParen(1))
  {
    UnclosedTop("(jsp a b");
  }

  /** A `)` at the top level starts a bare identifier: it is kept. */
  lemma {:induction false} StrayCloseExample()
    ensures ParseConfig(")") == Ok([Ident(")")])
  {
    var s := ")";
    ItemsStep(s, Cursor(0, 1));
    OneWord(s, Cursor(0, 1));
    assert IdentEnd(s, 1) == 1;
    assert s[0..1] == ")";
    assert ParseItemsAt(s, Cursor(1, 1)) == Ok([]);
    assert [Ident(")")] + [] == [Ident(")")];
  }

  /** A pair's key may be empty: `()` is a pair with key "" and no forms. */
  lemma {:induction false} EmptyKeyExample()
    ensures ParseConfig("()") == Ok([Pair("", Array([]))])
  {
    var s := "()";
    ItemsStep(s, Cursor(0, 1));
    OnePair(s, Cursor(0, 1));
    assert IdentEnd(s, 1) == 1;
    assert s[1..1] == "";
    assert ParseBodyAt(s, Cursor(1, 1)) == Ok(Parsed([], Cursor(1, 1)));
    assert ParseOneAt(s, Cursor(0, 1)) == Ok(Parsed(Pair("", Array([])), Cursor(2, 1)));
    assert Keep(Pair("", Array([]))) == [Pair("", Array([]))];
    assert ParseItemsAt(s, Cursor(2, 1)) == Ok([]);
    assert [Pair("", Array([]))] + [] == [Pair("", Array([]))];
  }
}
