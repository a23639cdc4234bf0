/**
 * The attribute instructions of the widget helpers: the `attr:value`
 * instruction string, and the two processes (SET and APPEND) that a
 * wrapped `as_widget` runs on the attrs dictionary it is handed.
 */
module FieldAttributes {

  /** An attribute mapping: a widget's static `attrs`, or the attrs dict staged for one render. */
  type Attrs = map<string, string>

  /**
   * `d.get(key)` is truthy: a missing key gives None and the empty string is
   * falsy, so only a present, non-empty value counts.
   */
  predicate Truthy(d: Attrs, key: string)
    ensures key !in d ==> !Truthy(d, key)
    ensures key in d ==> (Truthy(d, key) <==> |d[key]| > 0)
  {
    key in d && d[key] != ""
  }

  /** The attribute name and the value of an instruction string. */
  datatype Params = Params(attribute: string, value: string)

  /**
   * Splits an instruction string at its first colon (`attr.split(':', 1)`):
   * the name is everything before that colon and the value everything after
   * it, later colons included; with no colon at all the value is ''.
   */
  function SplitAttr(s: string): (r: Params)
    ensures ':' in s ==> s == r.attribute + ":" + r.value && ':' !in r.attribute
    ensures ':' !in s ==> r == Params(s, "")
  {
    if s == [] then Params("", "")
    else if s[0] == ':' then Params("", s[1..])
    else
      var t := SplitAttr(s[1..]);
      assert s == [s[0]] + s[1..];
      Params([s[0]] + t.attribute, t.value)
  }

  /** Two colon-free names that start the same string, each followed by ':', are the same name. */
  lemma FirstColonUnique(a: string, x: string, b: string, y: string)
    requires ':' !in a && ':' !in b
    requires a + ":" + x == b + ":" + y
    ensures a == b && x == y
  {
    var s := a + ":" + x;
    assert s[|a|] == ':' && s[|b|] == ':';
    if |a| < |b| {
      assert false;
    } else if |b| < |a| {
      assert false;
    }
    assert a == s[..|a|] == b;
    assert x == s[|a| + 1..] == y;
  }

  /** Joining a colon-free name and any value with ':' and splitting again gives both back. */
  lemma SplitJoin(attribute: string, value: string)
    requires ':' !in attribute
    ensures SplitAttr(attribute + ":" + value) == Params(attribute, value)
  {
    var s := attribute + ":" + value;
    assert s[|attribute|] == ':';
    var r := SplitAttr(s);
    FirstColonUnique(r.attribute, r.value, attribute, value);
  }

  /** A colon-free prefix goes to the attribute name, whatever follows it. */
  lemma SplitPrefix(prefix: string, s: string)
    requires ':' !in prefix
    ensures SplitAttr(prefix + s) == Params(prefix + SplitAttr(s).attribute, SplitAttr(s).value)
  {
    var t := SplitAttr(s);
    if ':' in s {
      assert prefix + s == (prefix + t.attribute) + ":" + t.value;
      SplitJoin(prefix + t.attribute, t.value);
    } else {
      assert ':' !in prefix + s;
    }
  }

  /** The SET process of `set_attr`: the staged value of `attribute` becomes `value`. */
  function SetProcess(attrs: Attrs, attribute: string, value: string): (r: Attrs)
    ensures r.Keys == attrs.Keys + {attribute}
    ensures r[attribute] == value
    ensures forall k :: k in attrs && k != attribute ==> r[k] == attrs[k]
  {
    attrs[attribute := value]
  }

  /**
   * The APPEND process of `append_attr`: onto a truthy staged value, else
   * onto a truthy value of the widget's static attrs, else the value alone.
   * Nothing is de-duplicated, and the result always ends in `value`.
   */
  function AppendProcess(widgetAttrs: Attrs, attrs: Attrs, attribute: string, value: string): (r: Attrs)
    ensures r.Keys == attrs.Keys + {attribute}
    ensures forall k :: k in attrs && k != attribute ==> r[k] == attrs[k]
    ensures Truthy(attrs, attribute) ==> r[attribute] == attrs[attribute] + " " + value
    ensures !Truthy(attrs, attribute) && Truthy(widgetAttrs, attribute) ==>
              r[attribute] == widgetAttrs[attribute] + " " + value
    ensures !Truthy(attrs, attribute) && !Truthy(widgetAttrs, attribute) ==> r[attribute] == value
    ensures |value| <= |r[attribute]| && r[attribute][|r[attribute]| - |value|..] == value
  {
    if Truthy(attrs, attribute) then attrs[attribute := attrs[attribute] + " " + value]
    else if Truthy(widgetAttrs, attribute) then attrs[attribute := widgetAttrs[attribute] + " " + value]
    else attrs[attribute := value]
  }

  /** Which of the two processes a filter wraps around `as_widget`. */
  datatype Op = SetOp | AppendOp

  /** One wrapper of the chain: its process, with the name and value it captured. */
  datatype Instr = Set(attribute: string, value: string) | Append(attribute: string, value: string)

  /** The wrapper `_process_field_attributes` builds for `process` and a split instruction string. */
  function Bind(op: Op, p: Params): (i: Instr)
    ensures i.attribute == p.attribute && i.value == p.value
    ensures i.Set? <==> op == SetOp
  {
    match op
    case SetOp => Set(p.attribute, p.value)
    case AppendOp => Append(p.attribute, p.value)
  }

  /** Runs one wrapper's process on the staged attrs; `widgetAttrs` are the static attrs of the widget in use. */
  function Process(i: Instr, widgetAttrs: Attrs, attrs: Attrs): (r: Attrs)
    ensures r.Keys == attrs.Keys + {i.attribute}
    ensures forall k :: k in attrs && k != i.attribute ==> r[k] == attrs[k]
    ensures i.Set? ==> r[i.attribute] == i.value
    ensures i.Append? ==> r == AppendProcess(widgetAttrs, attrs, i.attribute, i.value)
  {
    match i
    case Set(a, v) => SetProcess(attrs, a, v)
    case Append(a, v) => AppendProcess(widgetAttrs, attrs, a, v)
  }
}
