/**
 * The wrapper chain around a bound field's `as_widget`, and the filters
 * that extend it (`attr`, `append_attr`, `add_class`, `add_error_class`,
 * `set_data`).
 *
 * Every filter call replaces `as_widget` by a wrapper that runs its own
 * process on the shared attrs dict and then delegates to the `as_widget` it
 * replaced. The chain is kept as `pending`, oldest wrapper first; at render
 * time the newest wrapper's process runs first.
 */
module WidgetChain {
  import opened Wrappers
  import opened FieldAttributes

  /** The attribute names the instructions of `p` write. */
  function Names(p: seq<Instr>): (r: set<string>)
    ensures forall i :: 0 <= i < |p| ==> p[i].attribute in r
    ensures forall a :: a in r ==> exists i :: 0 <= i < |p| && p[i].attribute == a
  {
    set i | 0 <= i < |p| :: p[i].attribute
  }

  lemma NamesLast(p: seq<Instr>)
    requires p != []
    ensures Names(p) == Names(p[..|p| - 1]) + {p[|p| - 1].attribute}
  {
    var q := p[..|p| - 1];
    forall a | a in Names(p) ensures a in Names(q) + {p[|p| - 1].attribute} {
      var i :| 0 <= i < |p| && p[i].attribute == a;
      if i < |p| - 1 {
        assert q[i] == p[i];
      }
    }
    forall a | a in Names(q) ensures a in Names(p) {
      var i :| 0 <= i < |q| && q[i].attribute == a;
      assert p[i] == q[i];
    }
  }

  /**
   * The attrs dict handed to the innermost, original `as_widget` when the
   * chain `p` (oldest first) is called with `attrs`: the newest wrapper
   * processes it, then the wrapper before it, and so on. Every name some
   * wrapper writes is present afterwards; every other key is untouched.
   */
  function RunChain(p: seq<Instr>, widgetAttrs: Attrs, attrs: Attrs): (r: Attrs)
    ensures r.Keys == attrs.Keys + Names(p)
    ensures forall k :: k in attrs && k !in Names(p) ==> r[k] == attrs[k]
    decreases |p|
  {
    if p == [] then attrs
    else
      NamesLast(p);
      RunChain(p[..|p| - 1], widgetAttrs, Process(p[|p| - 1], widgetAttrs, attrs))
  }

  /** The elements of `s` in reverse order. */
  function Reverse<T>(s: seq<T>): (r: seq<T>)
    ensures |r| == |s|
  {
    if s == [] then [] else [s[|s| - 1]] + Reverse(s[..|s| - 1])
  }

  /** Reference semantics: run the processes of `q` one after another, first element first. */
  function RunInOrder(q: seq<Instr>, widgetAttrs: Attrs, attrs: Attrs): (r: Attrs)
    ensures attrs.Keys <= r.Keys
    ensures forall i :: 0 <= i < |q| ==> q[i].attribute in r
  {
    if q == [] then attrs else RunInOrder(q[1..], widgetAttrs, Process(q[0], widgetAttrs, attrs))
  }

  /** The chain runs its wrappers newest first: it is the in-order run of the reversed chain. */
  lemma {:induction false} ChainIsReversed(p: seq<Instr>, widgetAttrs: Attrs, attrs: Attrs)
    ensures RunChain(p, widgetAttrs, attrs) == RunInOrder(Reverse(p), widgetAttrs, attrs)
    decreases |p|
  {
    if p != [] {
      var last := p[|p| - 1];
      assert Reverse(p)[1..] == Reverse(p[..|p| - 1]);
      ChainIsReversed(p[..|p| - 1], widgetAttrs, Process(last, widgetAttrs, attrs));
    }
  }

  /** Wrapping `q` around a chain `p` makes `q`'s processes run before all of `p`'s. */
  lemma {:induction false} ChainConcat(p: seq<Instr>, q: seq<Instr>, widgetAttrs: Attrs, attrs: Attrs)
    ensures RunChain(p + q, widgetAttrs, attrs) == RunChain(p, widgetAttrs, RunChain(q, widgetAttrs, attrs))
    decreases |q|
  {
    if q == [] {
      assert p + q == p;
    } else {
      var last := q[|q| - 1];
      assert (p + q)[..|p + q| - 1] == p + q[..|q| - 1];
      ChainConcat(p, q[..|q| - 1], widgetAttrs, Process(last, widgetAttrs, attrs));
    }
  }

  /**
   * The oldest wrapper that names an attribute has the last word on it:
   * when that wrapper is a SET, the SET's value is the final value.
   */
  lemma {:induction false} OldestSetWins(p: seq<Instr>, i: nat, widgetAttrs: Attrs, attrs: Attrs)
    requires i < |p| && p[i].Set?
    requires forall j :: 0 <= j < i ==> p[j].attribute != p[i].attribute
    ensures p[i].attribute in RunChain(p, widgetAttrs, attrs)
    ensures RunChain(p, widgetAttrs, attrs)[p[i].attribute] == p[i].value
    decreases |p|
  {
    var k := p[i].attribute;
    var q := p[..|p| - 1];
    var a' := Process(p[|p| - 1], widgetAttrs, attrs);
    if i == |p| - 1 {
      assert forall j :: 0 <= j < |q| ==> q[j] == p[j];
      assert k !in Names(q);
    } else {
      assert q[i] == p[i];
      OldestSetWins(q, i, widgetAttrs, a');
    }
  }

  /** The instructions `add_class` pushes for the classes `cs`, oldest first. */
  function Appends(attribute: string, cs: seq<string>): (p: seq<Instr>)
    ensures |p| == |cs|
  {
    if cs == [] then [] else Appends(attribute, cs[..|cs| - 1]) + [Append(attribute, cs[|cs| - 1])]
  }

  /** Space-separated concatenation. */
  function JoinSpaces(xs: seq<string>): (r: string)
    ensures |xs| > 0 ==> xs[0] <= r
  {
    if |xs| == 0 then "" else if |xs| == 1 then xs[0] else xs[0] + " " + JoinSpaces(xs[1..])
  }

  lemma JoinMerge(x: string, c: string, rest: seq<string>)
    ensures JoinSpaces([x + " " + c] + rest) == x + " " + JoinSpaces([c] + rest)
  {
    if rest != [] {
      assert ([x + " " + c] + rest)[1..] == rest;
      assert ([c] + rest)[1..] == rest;
    }
  }

  /** One step of the chain: the newest wrapper's process runs, then the rest of the chain. */
  lemma ChainLast(p: seq<Instr>, widgetAttrs: Attrs, attrs: Attrs)
    requires p != []
    ensures RunChain(p, widgetAttrs, attrs)
            == RunChain(p[..|p| - 1], widgetAttrs, Process(p[|p| - 1], widgetAttrs, attrs))
  {
  }

  /** Dropping the newest class: the chain for `cs` is the chain for all but its last entry, plus that entry. */
  lemma AppendsLast(attribute: string, cs: seq<string>)
    requires cs != []
    ensures Appends(attribute, cs)[..|cs| - 1] == Appends(attribute, cs[..|cs| - 1])
    ensures Appends(attribute, cs)[|cs| - 1] == Append(attribute, cs[|cs| - 1])
    ensures Reverse(cs) == [cs[|cs| - 1]] + Reverse(cs[..|cs| - 1])
  {
  }

  /** APPENDs onto a truthy staged value add their values to it, newest first, one space apart. */
  lemma {:induction false} AppendsOntoStaged(attribute: string, cs: seq<string>, widgetAttrs: Attrs, attrs: Attrs)
    requires Truthy(attrs, attribute)
    ensures attribute in RunChain(Appends(attribute, cs), widgetAttrs, attrs)
    ensures RunChain(Appends(attribute, cs), widgetAttrs, attrs)[attribute]
            == JoinSpaces([attrs[attribute]] + Reverse(cs))
    decreases |cs|
  {
    if cs == [] {
      assert [attrs[attribute]] + Reverse(cs) == [attrs[attribute]];
    } else {
      var c := cs[|cs| - 1];
      var rest := cs[..|cs| - 1];
      AppendsLast(attribute, cs);
      var a' := Process(Append(attribute, c), widgetAttrs, attrs);
      ChainLast(Appends(attribute, cs), widgetAttrs, attrs);
      AppendsOntoStaged(attribute, rest, widgetAttrs, a');
      var x := attrs[attribute];
      assert a'[attribute] == x + " " + c;
      JoinMerge(x, c, Reverse(rest));
      assert [x] + Reverse(cs) == [x] + ([c] + Reverse(rest));
    }
  }

  /**
   * `add_class` repeated over `cs` on a widget with no class: the classes
   * come out newest first, one space apart and not de-duplicated
   * (`add_class:"a"|add_class:"b"` gives "b a").
   */
  lemma AppendsOntoNothing(attribute: string, cs: seq<string>, widgetAttrs: Attrs, attrs: Attrs)
    requires !Truthy(attrs, attribute) && !Truthy(widgetAttrs, attribute)
    requires cs != [] && cs[|cs| - 1] != ""
    ensures RunChain(Appends(attribute, cs), widgetAttrs, attrs)[attribute] == JoinSpaces(Reverse(cs))
  {
    var c := cs[|cs| - 1];
    var rest := cs[..|cs| - 1];
    AppendsLast(attribute, cs);
    var a' := Process(Append(attribute, c), widgetAttrs, attrs);
    ChainLast(Appends(attribute, cs), widgetAttrs, attrs);
    assert a'[attribute] == c;
    AppendsOntoStaged(attribute, rest, widgetAttrs, a');
  }

  /**
   * `add_class` repeated over `cs` on a widget whose static attrs have a
   * class and with nothing staged: the static class comes first, then the
   * new classes, newest first.
   */
  lemma AppendsOntoWidget(attribute: string, cs: seq<string>, widgetAttrs: Attrs, attrs: Attrs)
    requires !Truthy(attrs, attribute) && Truthy(widgetAttrs, attribute)
    requires cs != []
    ensures RunChain(Appends(attribute, cs), widgetAttrs, attrs)[attribute]
            == JoinSpaces([widgetAttrs[attribute]] + Reverse(cs))
  {
    var c := cs[|cs| - 1];
    var rest := cs[..|cs| - 1];
    AppendsLast(attribute, cs);
    var x := widgetAttrs[attribute];
    var a' := Process(Append(attribute, c), widgetAttrs, attrs);
    ChainLast(Appends(attribute, cs), widgetAttrs, attrs);
    assert a'[attribute] == x + " " + c;
    AppendsOntoStaged(attribute, rest, widgetAttrs, a');
    JoinMerge(x, c, Reverse(rest));
    assert [x] + Reverse(cs) == [x] + ([c] + Reverse(rest));
    assert JoinSpaces([x] + Reverse(cs)) == x + " " + JoinSpaces([c] + Reverse(rest));
  }

  /** `field|add_class:"a"|add_class:"b"` on a widget without a class renders class "b a". */
  lemma AddClassTwiceExample()
    ensures RunChain(Appends("class", ["a", "b"]), map[], map[])["class"] == "b a"
  {
    var cs := ["a", "b"];
    AppendsOntoNothing("class", cs, map[], map[]);
    assert cs[..1] == ["a"];
    assert Reverse(cs) == ["b", "a"];
  }

  /**
   * A bound form field. `as_widget` is modelled by the chain of processes
   * wrapped around it; the final HTML rendering is left to the framework.
   */
  class BoundField {
    /** The static attributes of the field's own widget (`field.field.widget.attrs`). */
    const widgetAttrs: Attrs
    /** Whether `hasattr(field, 'errors') and field.errors` holds. */
    const hasErrors: bool
    /** The processes wrapped around `as_widget`, oldest first. */
    var pending: seq<Instr>

    constructor (widgetAttrs: Attrs, hasErrors: bool)
      ensures this.widgetAttrs == widgetAttrs && this.hasErrors == hasErrors
      ensures pending == []
    {
      this.widgetAttrs := widgetAttrs;
      this.hasErrors := hasErrors;
      pending := [];
    }

    /** `widget or self.field.widget`: the static attrs the processes consult. */
    function WidgetFor(widget: Option<Attrs>): (w: Attrs)
      ensures widget.Some? ==> w == widget.value
      ensures widget.None? ==> w == widgetAttrs
    {
      if widget.Some? then widget.value else widgetAttrs
    }

    /**
     * `as_widget(widget, attrs)`: the attrs dict the original renderer
     * receives, the processes having run newest first.
     */
    function AsWidget(widget: Option<Attrs>, attrs: Attrs): (r: Attrs)
      reads this
      ensures r == RunInOrder(Reverse(pending), WidgetFor(widget), attrs)
    {
      ChainIsReversed(pending, WidgetFor(widget), attrs);
      RunChain(pending, WidgetFor(widget), attrs)
    }

    /**
     * `_process_field_attributes(field, attr, process)`: split `attr` at its
     * first colon and wrap `as_widget` in a wrapper for `process`, so that
     * from now on that process runs first and then the old `as_widget`.
     */
    method ProcessFieldAttributes(attr: string, op: Op)
      modifies this
      ensures pending == old(pending) + [Bind(op, SplitAttr(attr))]
      ensures forall widget, attrs :: AsWidget(widget, attrs)
                == RunChain(old(pending), WidgetFor(widget), Process(Bind(op, SplitAttr(attr)), WidgetFor(widget), attrs))
    {
      var params := SplitAttr(attr);
      pending := pending + [Bind(op, params)];
      assert pending[..|pending| - 1] == old(pending);
    }
  }

  /** A filter's field argument: a falsy value such as '' (a framework bound field is always truthy), or a bound field. */
  datatype FieldArg = Falsy | Field(f: BoundField)

  /** The objects a filter on `field` may change. */
  function Footprint(field: FieldArg): (s: set<object>)
  {
    if field.Field? then {field.f} else {}
  }

  /** The `attr` filter (`set_attr`): a falsy field gives ''; otherwise a SET wrapper is added. */
  method SetAttr(field: FieldArg, attr: string) returns (r: FieldArg)
    modifies Footprint(field)
    ensures field.Falsy? ==> r == Falsy
    ensures field.Field? ==> r == field
    ensures field.Field? ==> field.f.pending == old(field.f.pending) + [Bind(SetOp, SplitAttr(attr))]
  {
    if field.Falsy? {
      return Falsy;
    }
    field.f.ProcessFieldAttributes(attr, SetOp);
    return field;
  }

  /** The `append_attr` filter: a falsy field gives ''; otherwise an APPEND wrapper is added. */
  method AppendAttr(field: FieldArg, attr: string) returns (r: FieldArg)
    modifies Footprint(field)
    ensures field.Falsy? ==> r == Falsy
    ensures field.Field? ==> r == field
    ensures field.Field? ==> field.f.pending == old(field.f.pending) + [Bind(AppendOp, SplitAttr(attr))]
  {
    if field.Falsy? {
      return Falsy;
    }
    field.f.ProcessFieldAttributes(attr, AppendOp);
    return field;
  }

  /**
   * The `add_class` filter: exactly `append_attr` of `'class:' + css`, and
   * so an APPEND of the whole of `css` (colons included) to `class`.
   */
  method AddClass(field: FieldArg, css: string) returns (r: FieldArg)
    modifies Footprint(field)
    ensures field.Falsy? ==> r == Falsy
    ensures field.Field? ==> r == field
    ensures field.Field? ==> field.f.pending == old(field.f.pending) + [Bind(AppendOp, SplitAttr("class:" + css))]
    ensures field.Field? ==> field.f.pending == old(field.f.pending) + [Append("class", css)]
  {
    if field.Falsy? {
      return Falsy;
    }
    SplitJoin("class", css);
    assert "class" + ":" + css == "class:" + css;
    r := AppendAttr(field, "class:" + css);
  }

  /** The `add_error_class` filter: `add_class` when the field carries errors, else the field unchanged. */
  method AddErrorClass(field: FieldArg, css: string) returns (r: FieldArg)
    modifies Footprint(field)
    ensures field.Falsy? ==> r == Falsy
    ensures field.Field? ==> r == field
    ensures field.Field? && field.f.hasErrors ==> field.f.pending == old(field.f.pending) + [Append("class", css)]
    ensures field.Field? && !field.f.hasErrors ==> field.f.pending == old(field.f.pending)
  {
    if field.Falsy? {
      return Falsy;
    }
    if field.f.hasErrors {
      r := AddClass(field, css);
      return;
    }
    return field;
  }

  /**
   * The `set_data` filter: exactly `attr` of `'data-' + data`, so the name
   * written is `data-` followed by the part of `data` before its first colon.
   */
  method SetData(field: FieldArg, data: string) returns (r: FieldArg)
    modifies Footprint(field)
    ensures field.Falsy? ==> r == Falsy
    ensures field.Field? ==> r == field
    ensures field.Field? ==> field.f.pending == old(field.f.pending) + [Bind(SetOp, SplitAttr("data-" + data))]
    ensures field.Field? ==> field.f.pending == old(field.f.pending) + [Set("data-" + SplitAttr(data).attribute, SplitAttr(data).value)]
  {
    if field.Falsy? {
      return Falsy;
    }
    SplitPrefix("data-", data);
    r := SetAttr(field, "data-" + data);
  }
}
