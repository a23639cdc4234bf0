/**
 * The `render_field` tag: its attribute-value pair grammar (`ATTRIBUTE_RE`),
 * the sorting of the pairs into SET and APPEND lists, and the node that
 * applies them to a bound field at render time.
 */
module RenderFieldTag {
  import opened Wrappers
  import opened FieldAttributes
  import opened WidgetChain

  /** A character of `[\w_-]`, with `\w` read as ASCII letters, digits and `_`. */
  predicate IsNameChar(c: char)
  {
    'a' <= c <= 'z' || 'A' <= c <= 'Z' || '0' <= c <= '9' || c == '_' || c == '-'
  }

  predicate IsQuote(c: char)
  {
    c == '"' || c == '\''
  }

  /** The strings `[\w_-]+` matches; none holds the ':' of an instruction or a character of a sign. */
  predicate IsName(s: string)
    ensures IsName(s) ==> |s| > 0 && ':' !in s && '=' !in s && '+' !in s
  {
    |s| > 0 && forall i :: 0 <= i < |s| ==> IsNameChar(s[i])
  }

  /** The strings `\+?=` matches: they end in '=' and hold no name character. */
  predicate IsSign(s: string)
    ensures IsSign(s) ==> 0 < |s| <= 2 && s[|s| - 1] == '=' && forall i :: 0 <= i < |s| ==> !IsNameChar(s[i])
  {
    s == "=" || s == "+="
  }

  /** The strings `['"]?[^"']*['"]?` matches: no quote except as first or last character. */
  predicate IsValue(s: string)
    ensures |s| <= 2 ==> IsValue(s)
    ensures (forall i :: 0 <= i < |s| ==> !IsQuote(s[i])) ==> IsValue(s)
  {
    forall i :: 0 < i < |s| - 1 ==> !IsQuote(s[i])
  }

  /** The three named groups of a match. */
  datatype AttrMatch = AttrMatch(attr: string, sign: string, value: string)

  /** `m` is a way for `ATTRIBUTE_RE` to match a prefix of `pair`. */
  predicate IsMatch(pair: string, m: AttrMatch)
    ensures IsMatch(pair, m) ==>
              |m.attr| < |m.attr| + |m.sign| <= |pair| && pair[..|m.attr|] == m.attr && pair[|m.attr| + |m.sign| - 1] == '='
  {
    IsName(m.attr) && IsSign(m.sign) && IsValue(m.value) && m.attr + m.sign + m.value <= pair
  }

  /** The length of the longest prefix of `s` made of name characters. */
  function NameSpan(s: string): (n: nat)
    ensures n <= |s|
    ensures forall i :: 0 <= i < n ==> IsNameChar(s[i])
    ensures n < |s| ==> !IsNameChar(s[n])
  {
    if s == [] || !IsNameChar(s[0]) then 0 else 1 + NameSpan(s[1..])
  }

  /** The length of the longest prefix of `s` without quotes. */
  function NonQuoteSpan(s: string): (n: nat)
    ensures n <= |s|
    ensures forall i :: 0 <= i < n ==> !IsQuote(s[i])
    ensures n < |s| ==> IsQuote(s[n])
  {
    if s == [] || IsQuote(s[0]) then 0 else 1 + NonQuoteSpan(s[1..])
  }

  /** The sign group at the start of `rest`, if there is one. */
  function SignGroup(rest: string): (r: Option<string>)
    ensures r.Some? ==> IsSign(r.value) && r.value <= rest
    ensures r.None? ==> forall sign :: IsSign(sign) ==> !(sign <= rest)
  {
    if |rest| >= 1 && rest[0] == '=' then Some("=")
    else if |rest| >= 2 && rest[0] == '+' && rest[1] == '=' then Some("+=")
    else None
  }

  /** The value group the greedy regex takes from `rest`: an optional quote, the quote-free run, an optional quote. */
  function ValueGroup(rest: string): (v: string)
    ensures v <= rest && IsValue(v)
  {
    var open := if rest != [] && IsQuote(rest[0]) then 1 else 0;
    var k := open + NonQuoteSpan(rest[open..]);
    if k < |rest| then rest[..k + 1] else rest
  }

  /** The value group is the longest prefix of `rest` that `['"]?[^"']*['"]?` matches. */
  lemma ValueGroupLongest(rest: string, n: nat)
    requires n <= |rest| && IsValue(rest[..n])
    ensures n <= |ValueGroup(rest)|
  {
    var open := if rest != [] && IsQuote(rest[0]) then 1 else 0;
    var k := open + NonQuoteSpan(rest[open..]);
    if k < |rest| && k + 1 < n {
      assert false;
    }
  }

  /** Consecutive prefixes of consecutive suffixes make a prefix. */
  lemma PrefixSplice(s: string, n: nat, a: string, b: string)
    requires n <= |s| && a <= s[n..] && b <= s[n + |a|..]
    ensures s[..n] + a + b <= s
  {
    assert s[n..][..|a|] == s[n..n + |a|];
    assert s[n + |a|..][..|b|] == s[n + |a|..n + |a| + |b|];
    assert s[..n] + a + b == s[..n + |a| + |b|];
  }

  /** The pieces of a prefix made of three consecutive parts are prefixes of the matching suffixes. */
  lemma PrefixParts(s: string, a: string, b: string, c: string)
    requires a + b + c <= s
    ensures b <= s[|a|..] && c <= s[|a| + |b|..]
  {
    assert s[..|a + b + c|] == a + b + c;
    assert s[|a|..][..|b|] == (a + b + c)[|a|..|a| + |b|];
    assert s[|a| + |b|..][..|c|] == (a + b + c)[|a| + |b|..];
  }

  /** `ATTRIBUTE_RE.match(pair)`: a prefix match, or None. */
  function MatchAttribute(pair: string): (r: Option<AttrMatch>)
    ensures r.Some? ==> IsMatch(pair, r.value)
  {
    var n := NameSpan(pair);
    if n == 0 then None
    else
      match SignGroup(pair[n..])
      case None => None
      case Some(sign) =>
        var value := ValueGroup(pair[n + |sign|..]);
        PrefixSplice(pair, n, sign, value);
        Some(AttrMatch(pair[..n], sign, value))
  }

  /**
   * Whenever the grammar can match `pair`, `MatchAttribute` finds a match,
   * with the same name and sign and a value at least as long: it is the
   * greedy, longest match.
   */
  lemma MatchIsLongest(pair: string, m: AttrMatch)
    requires IsMatch(pair, m)
    ensures MatchAttribute(pair).Some?
    ensures MatchAttribute(pair).value.attr == m.attr
    ensures MatchAttribute(pair).value.sign == m.sign
    ensures |m.value| <= |MatchAttribute(pair).value.value|
  {
    var n := |m.attr|;
    MatchNameIsSpan(pair, m);
    PrefixParts(pair, m.attr, m.sign, m.value);
    assert SignGroup(pair[n..]) == Some(m.sign);
    var rest := pair[n + |m.sign|..];
    assert m.value == rest[..|m.value|];
    ValueGroupLongest(rest, |m.value|);
  }

  /** The name of any match is the longest run of name characters at the start of the pair. */
  lemma MatchNameIsSpan(pair: string, m: AttrMatch)
    requires IsMatch(pair, m)
    ensures NameSpan(pair) == |m.attr| && pair[..|m.attr|] == m.attr
  {
    var n := NameSpan(pair);
    var a := |m.attr|;
    assert pair[..a] == m.attr;
    assert pair[a] == m.sign[0];
    if n < a {
      assert false;
    }
    if a < n {
      assert false;
    }
  }

  /** A pair fails the grammar exactly when no way of matching it exists. */
  lemma NoMatchIffSyntaxError(pair: string)
    ensures MatchAttribute(pair).None? <==> forall m :: !IsMatch(pair, m)
  {
    forall m | IsMatch(pair, m) ensures MatchAttribute(pair).Some? {
      MatchIsLongest(pair, m);
    }
  }

  /** An attribute name and its (still unresolved) value expression. */
  datatype AttrPair = AttrPair(attr: string, value: string)

  /** The pairs among `pairs` that match with sign `sign`, as (name, value), in source order. */
  function Selected(pairs: seq<string>, sign: string): (r: seq<AttrPair>)
    ensures |r| <= |pairs|
    ensures forall j :: 0 <= j < |r| ==> IsName(r[j].attr)
  {
    if pairs == [] then []
    else
      var rest := Selected(pairs[..|pairs| - 1], sign);
      match MatchAttribute(pairs[|pairs| - 1])
      case Some(m) => if m.sign == sign then rest + [AttrPair(m.attr, m.value)] else rest
      case None => rest
  }

  predicate AllMatch(pairs: seq<string>)
  {
    forall i :: 0 <= i < |pairs| ==> MatchAttribute(pairs[i]).Some?
  }

  /** One more pair extends the selection by its own (name, value) when it matches with `sign`. */
  lemma SelectedSnoc(init: seq<string>, pair: string, sign: string)
    ensures Selected(init + [pair], sign)
            == Selected(init, sign) + (if MatchAttribute(pair).Some? && MatchAttribute(pair).value.sign == sign
                                       then [AttrPair(MatchAttribute(pair).value.attr, MatchAttribute(pair).value.value)]
                                       else [])
  {
    assert (init + [pair])[..|init|] == init;
  }

  /** The step of the pair loop: one more matching pair goes to the list its sign names. */
  lemma SelectedStep(pairs: seq<string>, i: nat)
    requires i < |pairs| && AllMatch(pairs[..i]) && MatchAttribute(pairs[i]).Some?
    ensures AllMatch(pairs[..i + 1])
    ensures var m := MatchAttribute(pairs[i]).value;
            && Selected(pairs[..i + 1], "=")
               == Selected(pairs[..i], "=") + (if m.sign == "=" then [AttrPair(m.attr, m.value)] else [])
            && Selected(pairs[..i + 1], "+=")
               == Selected(pairs[..i], "+=") + (if m.sign == "=" then [] else [AttrPair(m.attr, m.value)])
  {
    assert pairs[..i + 1] == pairs[..i] + [pairs[i]];
    SelectedSnoc(pairs[..i], pairs[i], "=");
    SelectedSnoc(pairs[..i], pairs[i], "+=");
  }

  /** When every pair matches, each one goes to exactly one of the two lists. */
  lemma {:induction false} SelectedPartition(pairs: seq<string>)
    requires AllMatch(pairs)
    ensures |Selected(pairs, "=")| + |Selected(pairs, "+=")| == |pairs|
    decreases |pairs|
  {
    if pairs != [] {
      var init := pairs[..|pairs| - 1];
      assert AllMatch(init) by {
        forall i | 0 <= i < |init| ensures MatchAttribute(init[i]).Some? {
          assert init[i] == pairs[i];
        }
      }
      SelectedPartition(init);
      assert MatchAttribute(pairs[|pairs| - 1]).Some?;
    }
  }

  /** Why the tag cannot be compiled. */
  datatype TagError =
    | IndexError                                        // fewer than two bits: `bits[1]` fails
    | TemplateSyntaxError(tagName: string, pair: string) // a pair outside the grammar

  /** The compiled tag: the field expression and the SET and APPEND pairs, each in source order. */
  datatype FieldAttributeNode = FieldAttributeNode(field: string, setAttrs: seq<AttrPair>, appendAttrs: seq<AttrPair>)

  /**
   * The loop of `render_field` over the attribute-value pairs: stops at the
   * first pair outside the grammar, else sorts `=` pairs into the SET list
   * and `+=` pairs into the APPEND list, each in source order.
   */
  method ClassifyPairs(tagName: string, attrList: seq<string>)
    returns (r: Result<(seq<AttrPair>, seq<AttrPair>), TagError>)
    ensures r.Success? <==> AllMatch(attrList)
    ensures r.Success? ==> r.value == (Selected(attrList, "="), Selected(attrList, "+="))
    ensures r.Failure? ==>
              exists i :: 0 <= i < |attrList| && r.error == TemplateSyntaxError(tagName, attrList[i])
                          && MatchAttribute(attrList[i]).None? && AllMatch(attrList[..i])
  {
    var setAttrs: seq<AttrPair> := [];
    var appendAttrs: seq<AttrPair> := [];
    var i := 0;
    while i < |attrList|
      invariant 0 <= i <= |attrList|
      invariant AllMatch(attrList[..i])
      invariant setAttrs == Selected(attrList[..i], "=")
      invariant appendAttrs == Selected(attrList[..i], "+=")
    {
      var pair := attrList[i];
      var found := MatchAttribute(pair);
      if found.None? {
        return Failure(TemplateSyntaxError(tagName, pair));
      }
      var m := found.value;
      SelectedStep(attrList, i);
      if m.sign == "=" {
        setAttrs := setAttrs + [AttrPair(m.attr, m.value)];
      } else {
        appendAttrs := appendAttrs + [AttrPair(m.attr, m.value)];
      }
      i := i + 1;
    }
    assert attrList[..i] == attrList;
    return Success((setAttrs, appendAttrs));
  }

  /**
   * `render_field(parser, token)` on the bits of the token: the tag name,
   * the field, then the attribute-value pairs. Fewer than two bits fail
   * with an index error; a pair outside the grammar fails with a syntax
   * error naming the tag and the pair.
   */
  method RenderField(bits: seq<string>) returns (r: Result<FieldAttributeNode, TagError>)
    ensures |bits| < 2 <==> r == Failure(IndexError)
    ensures |bits| >= 2 ==> (r.Success? <==> AllMatch(bits[2..]))
    ensures r.Success? ==> r.value == FieldAttributeNode(bits[1], Selected(bits[2..], "="), Selected(bits[2..], "+="))
    ensures r.Failure? && |bits| >= 2 ==>
              exists i :: 2 <= i < |bits| && r.error == TemplateSyntaxError(bits[0], bits[i])
                          && MatchAttribute(bits[i]).None? && AllMatch(bits[2..i])
  {
    if |bits| < 2 {
      return Failure(IndexError);
    }
    var tagName, formField, attrList := bits[0], bits[1], bits[2..];
    var sorted := ClassifyPairs(tagName, attrList);
    if sorted.Failure? {
      ghost var i :| 0 <= i < |attrList| && sorted.error == TemplateSyntaxError(tagName, attrList[i])
                     && MatchAttribute(attrList[i]).None? && AllMatch(attrList[..i]);
      assert attrList[i] == bits[2 + i] && attrList[..i] == bits[2..2 + i];
      return Failure(sorted.error);
    }
    return Success(FieldAttributeNode(formField, sorted.value.0, sorted.value.1));
  }

  /** The wrappers `render` adds for `ps` with `op`: one per pair, from `'%s:%s' % (k, resolved value)`. */
  function StagedInstrs(ps: seq<AttrPair>, op: Op, resolve: string -> string): (r: seq<Instr>)
    ensures |r| == |ps|
  {
    if ps == [] then []
    else
      var last := ps[|ps| - 1];
      StagedInstrs(ps[..|ps| - 1], op, resolve) + [Bind(op, SplitAttr(last.attr + ":" + resolve(last.value)))]
  }

  /** Names from the grammar hold no colon, so each wrapper gets back exactly its pair's name and resolved value. */
  lemma {:induction false} StagedExact(ps: seq<AttrPair>, op: Op, resolve: string -> string)
    requires forall j :: 0 <= j < |ps| ==> IsName(ps[j].attr)
    ensures forall j :: 0 <= j < |ps| ==>
              StagedInstrs(ps, op, resolve)[j] == Bind(op, Params(ps[j].attr, resolve(ps[j].value)))
    decreases |ps|
  {
    if ps != [] {
      var init := ps[..|ps| - 1];
      var last := ps[|ps| - 1];
      StagedExact(init, op, resolve);
      assert IsName(last.attr);
      SplitJoin(last.attr, resolve(last.value));
    }
  }

  /** The step of a `render` loop: one more pair adds its own wrapper at the end. */
  lemma StagedStep(ps: seq<AttrPair>, i: nat, op: Op, resolve: string -> string)
    requires i < |ps|
    ensures StagedInstrs(ps[..i + 1], op, resolve)
            == StagedInstrs(ps[..i], op, resolve) + [Bind(op, SplitAttr(ps[i].attr + ":" + resolve(ps[i].value)))]
  {
    assert ps[..i + 1][..i] == ps[..i];
  }

  /** The filter a `render` loop applies: `attr` for SET pairs, `append_attr` for APPEND pairs. */
  method ApplyFilter(field: FieldArg, attr: string, op: Op) returns (r: FieldArg)
    modifies Footprint(field)
    ensures r == field
    ensures field.Field? ==> field.f.pending == old(field.f.pending) + [Bind(op, SplitAttr(attr))]
  {
    if op == SetOp {
      r := SetAttr(field, attr);
    } else {
      r := AppendAttr(field, attr);
    }
  }

  /** One loop of `render`: apply the filter for `op` to the field once per pair, in order (a falsy field stays ''). */
  method WrapPairs(field: FieldArg, ps: seq<AttrPair>, op: Op, resolve: string -> string) returns (r: FieldArg)
    modifies Footprint(field)
    ensures r == field
    ensures field.Field? ==> field.f.pending == old(field.f.pending) + StagedInstrs(ps, op, resolve)
  {
    r := field;
    for i := 0 to |ps|
      invariant r == field
      invariant field.Field? ==> field.f.pending == old(field.f.pending) + StagedInstrs(ps[..i], op, resolve)
    {
      StagedStep(ps, i, op, resolve);
      r := ApplyFilter(r, ps[i].attr + ":" + resolve(ps[i].value), op);
      assert field.Field? ==>
               field.f.pending == old(field.f.pending) + StagedInstrs(ps[..i], op, resolve)
                                  + [Bind(op, SplitAttr(ps[i].attr + ":" + resolve(ps[i].value)))];
    }
    assert ps[..|ps|] == ps;
  }

  /**
   * `FieldAttributeNode.render`: on the resolved field, apply `attr` for
   * every SET pair, then `append_attr` for every APPEND pair, each with
   * `'%s:%s' % (name, resolved value)`.
   */
  method Render(node: FieldAttributeNode, field: FieldArg, resolve: string -> string) returns (r: FieldArg)
    modifies Footprint(field)
    ensures r == field
    ensures field.Field? ==>
              field.f.pending == old(field.f.pending) + StagedInstrs(node.setAttrs, SetOp, resolve)
                                 + StagedInstrs(node.appendAttrs, AppendOp, resolve)
  {
    var bounded := WrapPairs(field, node.setAttrs, SetOp, resolve);
    bounded := WrapPairs(bounded, node.appendAttrs, AppendOp, resolve);
    return bounded;
  }

  /**
   * At widget-render time a tag's APPEND processes run before its SET
   * processes, and its first SET on a name runs last of them: when the
   * field had no earlier wrapper for that name, the first SET's value is
   * the final one, whatever APPENDs the tag has for it.
   */
  lemma TagSetWins(prior: seq<Instr>, node: FieldAttributeNode, resolve: string -> string,
                   widgetAttrs: Attrs, attrs: Attrs, t: nat)
    requires forall j :: 0 <= j < |node.setAttrs| ==> IsName(node.setAttrs[j].attr)
    requires t < |node.setAttrs|
    requires forall j :: 0 <= j < t ==> node.setAttrs[j].attr != node.setAttrs[t].attr
    requires node.setAttrs[t].attr !in Names(prior)
    ensures var p := prior + StagedInstrs(node.setAttrs, SetOp, resolve) + StagedInstrs(node.appendAttrs, AppendOp, resolve);
            && node.setAttrs[t].attr in RunChain(p, widgetAttrs, attrs)
            && RunChain(p, widgetAttrs, attrs)[node.setAttrs[t].attr] == resolve(node.setAttrs[t].value)
  {
    var k := node.setAttrs[t].attr;
    var sets := StagedInstrs(node.setAttrs, SetOp, resolve);
    var p := prior + sets + StagedInstrs(node.appendAttrs, AppendOp, resolve);
    StagedExact(node.setAttrs, SetOp, resolve);
    var i := |prior| + t;
    assert p[i] == sets[t] == Set(k, resolve(node.setAttrs[t].value));
    forall j | 0 <= j < i ensures p[j].attribute != k {
      if j < |prior| {
        assert p[j] == prior[j];
        assert prior[j].attribute in Names(prior);
      } else {
        assert p[j] == sets[j - |prior|];
      }
    }
    OldestSetWins(p, i, widgetAttrs, attrs);
  }

  /** A pair that lies wholly in the grammar is read back as exactly its name, sign and value. */
  lemma MatchRoundTrip(attr: string, sign: string, value: string)
    requires IsName(attr) && IsSign(sign) && IsValue(value)
    ensures MatchAttribute(attr + sign + value) == Some(AttrMatch(attr, sign, value))
  {
    var pair := attr + sign + value;
    var m := AttrMatch(attr, sign, value);
    assert pair[..|attr| + |sign|] == attr + sign;
    assert IsMatch(pair, m);
    MatchIsLongest(pair, m);
    var r := MatchAttribute(pair).value;
    var k := |attr| + |sign|;
    assert r.attr + r.sign + r.value <= pair;
    assert |r.value| == |value|;
    assert r.attr + r.sign + r.value == pair;
    assert r.value == (r.attr + r.sign + r.value)[k..];
    assert pair[k..] == value;
  }

  /** `attr=v1 attr+=v2` parses into one SET pair and one APPEND pair. */
  lemma OneSetOneAppendParse(attr: string, v1: string, v2: string)
    requires IsName(attr) && IsValue(v1) && IsValue(v2)
    ensures var pairs := [attr + "=" + v1, attr + "+=" + v2];
            && AllMatch(pairs)
            && Selected(pairs, "=") == [AttrPair(attr, v1)]
            && Selected(pairs, "+=") == [AttrPair(attr, v2)]
  {
    var pairs := [attr + "=" + v1, attr + "+=" + v2];
    MatchRoundTrip(attr, "=", v1);
    MatchRoundTrip(attr, "+=", v2);
    assert pairs == [] + [pairs[0]] + [pairs[1]];
    SelectedSnoc([], pairs[0], "=");
    SelectedSnoc([], pairs[0], "+=");
    SelectedSnoc([pairs[0]], pairs[1], "=");
    SelectedSnoc([pairs[0]], pairs[1], "+=");
  }

  /**
   * One SET and one APPEND on the same name in one tag, as in
   * `render_field field class="a" class+="b"`: the APPEND runs first and
   * the SET last, so the rendered value is the SET's ("a", not "a b").
   */
  lemma SetAndAppendInOneTag(attr: string, v1: string, v2: string, resolve: string -> string)
    requires IsName(attr) && IsValue(v1) && IsValue(v2)
    ensures var pairs := [attr + "=" + v1, attr + "+=" + v2];
            && AllMatch(pairs)
            && Selected(pairs, "=") == [AttrPair(attr, v1)]
            && Selected(pairs, "+=") == [AttrPair(attr, v2)]
            && attr in RunChain(StagedInstrs(Selected(pairs, "="), SetOp, resolve)
                                + StagedInstrs(Selected(pairs, "+="), AppendOp, resolve), map[], map[])
            && RunChain(StagedInstrs(Selected(pairs, "="), SetOp, resolve)
                        + StagedInstrs(Selected(pairs, "+="), AppendOp, resolve), map[], map[])[attr] == resolve(v1)
  {
    OneSetOneAppendParse(attr, v1, v2);
    var node := FieldAttributeNode("", [AttrPair(attr, v1)], [AttrPair(attr, v2)]);
    TagSetWins([], node, resolve, map[], map[], 0);
    assert [] + StagedInstrs(node.setAttrs, SetOp, resolve) == StagedInstrs(node.setAttrs, SetOp, resolve);
  }
}
