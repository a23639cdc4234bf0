# Widget attribute helpers of vac_templater

This project models the template helpers that change the HTML attributes of a form
field's widget in vac_templater (`vac_templater/templatetags/vac_templater_widget_helpers.py`,
derived from django-widget-tweaks). The Dafny modules are:

- `FieldAttributes`: the `attr:value` instruction string, split at its first colon,
  and the two processes. SET (`set_attr`) overwrites one key of the staged attrs
  dictionary. APPEND (`append_attr`) extends the staged value, or else the widget's
  static value, or else starts from the value alone.
- `WidgetChain`: the chain of wrappers that `_process_field_attributes` builds
  around `as_widget`. A bound field is a `BoundField` class whose `pending`
  field lists the wrapped processes, oldest first. A filter call on a bound field
  appends one process, except `add_error_class` on a field without errors, which
  appends none. `as_widget` runs them newest first (`AsWidget`, `RunChain`). The
  filters `attr`, `append_attr`, `add_class`, `add_error_class` and `set_data`
  are methods on a field argument. That argument is either falsy
  (`silence_without_field` turns the result into `''`, modelled as `Falsy`) or a bound field.
- `RenderFieldTag`: the `{% render_field %}` tag. `ATTRIBUTE_RE` becomes a
  longest-prefix matcher (`MatchAttribute`), proved exact and maximal against a
  declarative description of the regular expression (`IsMatch`). `RenderField`
  sorts the pairs into SET and APPEND lists, or raises a syntax error.
  `Render` (`FieldAttributeNode.render`) wraps the field first with every SET
  and then with every APPEND. Because the chain runs newest first, all of the
  tag's APPENDs run before its SETs at render time, and its first SET on a name
  runs last of them. When no filter applied before the tag wrapped the field with
  a process for that name, that SET decides the value (`TagSetWins`); an older
  wrapper for the name runs later still and has the last word.

Template variables in values are resolved by a function parameter `resolve`.

A SET and an APPEND on the same name in one tag, as in
`{% render_field f class="a" class+="b" %}`, do not combine: the APPEND process
for `b` runs first and the SET process for `a` then overwrites it, so the
attribute is `a` (`SetAndAppendInOneTag`).

## Model

| member | source | states |
|---|---|---|
| FieldAttributes.SplitAttr | vac_templater/templatetags/vac_templater_widget_helpers.py:29-31 | with a colon, the string is name + ':' + value and the name has no colon (the first colon splits); without one, the name is the whole string and the value is '' |
| FieldAttributes.FirstColonUnique | vac_templater/templatetags/vac_templater_widget_helpers.py:29-31 | a string has only one decomposition as colon-free name, ':' and rest, so the split is determined |
| FieldAttributes.SplitJoin | vac_templater/templatetags/vac_templater_widget_helpers.py:29-31 | splitting name + ':' + value gives back the colon-free name and the value, even when the value holds colons |
| FieldAttributes.SplitPrefix | vac_templater/templatetags/vac_templater_widget_helpers.py:86-87 | a colon-free prefix such as 'data-' ends up at the front of the attribute name and leaves the value as it was |
| FieldAttributes.Truthy | vac_templater/templatetags/vac_templater_widget_helpers.py:61-63 | `.get()` is truthy exactly when the key is present with a non-empty value; a missing key is falsy |
| FieldAttributes.SetProcess | vac_templater/templatetags/vac_templater_widget_helpers.py:52-53 | SET adds the key, gives it exactly the value and leaves every other key unchanged |
| FieldAttributes.AppendProcess | vac_templater/templatetags/vac_templater_widget_helpers.py:60-66 | the three-way rule: a truthy staged value gets ' ' + value appended; else a truthy widget value gets it; else the value alone. Other keys are unchanged and the result always ends in the value |
| FieldAttributes.Bind | vac_templater/templatetags/vac_templater_widget_helpers.py:36-38 | the wrapper captures the split name and value and the process it was given |
| FieldAttributes.Process | vac_templater/templatetags/vac_templater_widget_helpers.py:38 | running one wrapper touches only its own key, and a SET gives that key exactly the captured value |
| WidgetChain.RunChain | vac_templater/templatetags/vac_templater_widget_helpers.py:36-39 | the chain's result has the input keys plus the instructions' names, and a key named by no instruction keeps its value |
| WidgetChain.ChainIsReversed | vac_templater/templatetags/vac_templater_widget_helpers.py:36-39 | the nested wrappers run their processes newest first: running the chain equals running the reversed list in order |
| WidgetChain.ChainConcat | vac_templater/templatetags/vac_templater_widget_helpers.py:34-39 | wrapping a chain with later wrappers runs the later ones first and then the earlier chain |
| WidgetChain.OldestSetWins | vac_templater/templatetags/vac_templater_widget_helpers.py:36-39 | a SET with no older wrapper for its name runs last, so its value is the final value of that name |
| WidgetChain.AppendsOntoStaged | vac_templater/templatetags/vac_templater_widget_helpers.py:60-66 | repeated APPENDs onto a truthy staged value join that value and the appended values, newest first, with single spaces |
| WidgetChain.AppendsOntoNothing | vac_templater/templatetags/vac_templater_widget_helpers.py:60-66 | with no truthy staged or widget value, repeated non-empty APPENDs give the appended values joined newest first |
| WidgetChain.AppendsOntoWidget | vac_templater/templatetags/vac_templater_widget_helpers.py:60-66 | with no truthy staged value but a truthy widget value, repeated APPENDs extend the widget value, newest first |
| WidgetChain.AddClassTwiceExample | vac_templater/templatetags/vac_templater_widget_helpers.py:72-73 | `add_class:"a"` then `add_class:"b"` renders class "b a" |
| WidgetChain.BoundField.WidgetFor | vac_templater/templatetags/vac_templater_widget_helpers.py:38 | `widget or self.field.widget`: the widget passed in if there is one, else the field's own widget attrs |
| WidgetChain.BoundField.AsWidget | vac_templater/templatetags/vac_templater_widget_helpers.py:36-39 | the attrs the original renderer receives are the pending processes run newest first over the attrs passed in, against the given widget or else the field's own |
| WidgetChain.BoundField.ProcessFieldAttributes | vac_templater/templatetags/vac_templater_widget_helpers.py:27-46 | one wrapper is added for the split instruction; the new `as_widget` runs its process first and then the old `as_widget` |
| WidgetChain.SetAttr | vac_templater/templatetags/vac_templater_widget_helpers.py:49-54 | a falsy field gives '' (`silence_without_field`, lines 18-24); otherwise the same field comes back with one SET wrapper added |
| WidgetChain.AppendAttr | vac_templater/templatetags/vac_templater_widget_helpers.py:57-67 | a falsy field gives ''; otherwise the same field comes back with one APPEND wrapper added |
| WidgetChain.AddClass | vac_templater/templatetags/vac_templater_widget_helpers.py:70-73 | equals `append_attr(field, 'class:' + c)`, and that is an APPEND of `c` to `class` |
| WidgetChain.AddErrorClass | vac_templater/templatetags/vac_templater_widget_helpers.py:76-81 | a falsy field gives ''; a field with errors gets an APPEND of the class; a field without errors is returned untouched |
| WidgetChain.SetData | vac_templater/templatetags/vac_templater_widget_helpers.py:84-87 | equals `set_attr(field, 'data-' + d)`, and that is a SET of `data-` + the name split from `d` |
| RenderFieldTag.IsName | vac_templater/templatetags/vac_templater_widget_helpers.py:92-94 | `[\w_-]+`: a non-empty run of name characters, so it holds no ':', '=' or '+' |
| RenderFieldTag.IsSign | vac_templater/templatetags/vac_templater_widget_helpers.py:95-97 | `\+?=`: '=' or '+=', one or two characters ending in '=' with no name character |
| RenderFieldTag.IsValue | vac_templater/templatetags/vac_templater_widget_helpers.py:98-102 | `['"]?[^"']*['"]?`: no quote except first or last; every string of at most two characters and every quote-free string is one |
| RenderFieldTag.IsMatch | vac_templater/templatetags/vac_templater_widget_helpers.py:91-103 | a decomposition of a prefix of the pair into name, sign and value groups; the pair starts with the name and has '=' right after name and sign |
| RenderFieldTag.NameSpan | vac_templater/templatetags/vac_templater_widget_helpers.py:92-94 | the longest run of name characters at the start of a string |
| RenderFieldTag.NonQuoteSpan | vac_templater/templatetags/vac_templater_widget_helpers.py:100 | `[^"']*`: the longest quote-free prefix, stopped by a quote or the end |
| RenderFieldTag.SignGroup | vac_templater/templatetags/vac_templater_widget_helpers.py:95-97 | `\+?=` matches '+=' or '=' at the start, or nothing |
| RenderFieldTag.ValueGroup | vac_templater/templatetags/vac_templater_widget_helpers.py:98-102 | the value group taken is a prefix of the rest with no quote inside its first and last characters |
| RenderFieldTag.ValueGroupLongest | vac_templater/templatetags/vac_templater_widget_helpers.py:98-102 | it is the longest such prefix |
| RenderFieldTag.MatchAttribute | vac_templater/templatetags/vac_templater_widget_helpers.py:132 | a match found is a valid decomposition of a prefix of the pair into name, sign and value |
| RenderFieldTag.MatchIsLongest | vac_templater/templatetags/vac_templater_widget_helpers.py:91-103 | whenever any decomposition exists a match is found, with the same name and sign and a value at least as long (greedy matching) |
| RenderFieldTag.NoMatchIffSyntaxError | vac_templater/templatetags/vac_templater_widget_helpers.py:132-134 | no match is found exactly when the pair has no valid decomposition |
| RenderFieldTag.MatchRoundTrip | vac_templater/templatetags/vac_templater_widget_helpers.py:91-103 | a name, a sign and a value written one after another are matched back into the same three groups |
| RenderFieldTag.Selected | vac_templater/templatetags/vac_templater_widget_helpers.py:138-141 | the pairs of one sign are selected in their order, each with a valid name |
| RenderFieldTag.SelectedPartition | vac_templater/templatetags/vac_templater_widget_helpers.py:138-141 | when every pair matches, the SET list and the APPEND list together have exactly as many entries as there are pairs |
| RenderFieldTag.ClassifyPairs | vac_templater/templatetags/vac_templater_widget_helpers.py:129-141 | success exactly when every pair matches, with the '=' pairs and the '+=' pairs in order; otherwise the error names the first bad pair |
| RenderFieldTag.RenderField | vac_templater/templatetags/vac_templater_widget_helpers.py:116-143 | fewer than two bits is an error; otherwise the node holds the field expression and the sorted pairs, or a syntax error names the tag and the first bad pair |
| RenderFieldTag.StagedInstrs | vac_templater/templatetags/vac_templater_widget_helpers.py:154-159 | one instruction per pair, in the order of the pairs |
| RenderFieldTag.StagedExact | vac_templater/templatetags/vac_templater_widget_helpers.py:154-159 | since a name has no colon, each instruction carries exactly the pair's name and its resolved value, even when the value holds colons |
| RenderFieldTag.ApplyFilter | vac_templater/templatetags/vac_templater_widget_helpers.py:155-159 | the filter of one loop step: the same field comes back, and a bound field gains one wrapper, SET or APPEND as chosen, for the split instruction |
| RenderFieldTag.WrapPairs | vac_templater/templatetags/vac_templater_widget_helpers.py:154-159 | wrapping with a list of pairs adds their instructions in order and returns the same field |
| RenderFieldTag.Render | vac_templater/templatetags/vac_templater_widget_helpers.py:152-160 | the field gets every SET wrapper and then every APPEND wrapper; a falsy field stays falsy |
| RenderFieldTag.TagSetWins | vac_templater/templatetags/vac_templater_widget_helpers.py:152-160 | after render, when no wrapper older than the tag names it, the first SET of a name in the tag decides that name's final value, whatever APPENDs the tag holds |
| RenderFieldTag.OneSetOneAppendParse | vac_templater/templatetags/vac_templater_widget_helpers.py:129-141 | `attr=v1 attr+=v2` matches and is sorted into exactly one SET pair and one APPEND pair |
| RenderFieldTag.SetAndAppendInOneTag | vac_templater/templatetags/vac_templater_widget_helpers.py:152-160 | `attr="a" attr+="b"` parses into one SET and one APPEND, and the rendered attribute is the resolved `a` alone |

## Left out

- Registration with Django's template library and the template engine itself are not modelled. The filters and the tag are plain operations.
- Value expressions are kept as raw strings. `parser.compile_filter`, its quote stripping and `resolve(context)` are a function parameter `resolve`.
- RenderField: `parser.compile_filter` is treated as total, so its own syntax errors are not modelled. A pair such as `class="a` matches `ATTRIBUTE_RE` with value `"a`, and the real `compile_filter` rejects the unclosed quote; the model accepts it. `r.Success? <==> AllMatch(bits[2..])` holds only under this reading.
- Render: it takes the already resolved field as a parameter (`self.field.resolve(context)`, line 153) and does not use `node.field`.
- The final HTML rendering by the original `as_widget` and its `only_initial` flag are not modelled. The model stops at the attrs dictionary that renderer receives.
- How the wrapper is bound as a method (`type(old_as_widget)`, the Python 2 and Python 3 branches, lines 41-45) is not modelled. Only the effect is: the field's `as_widget` is replaced.
- `field_type` and `widget_type` (lines 163-186) are outside the modelled core.
- RenderField: a tag with fewer than two bits fails with `IndexError`, which the source's `except ValueError` does not catch. It is modelled as that error, not as a `TemplateSyntaxError`.
- RenderField: the error message text is reduced to the tag name and the offending pair.
- IsNameChar: `\w` under `re.UNICODE` also matches non-ASCII letters and digits; the model accepts only ASCII letters, digits, `_` and `-`.
- Attribute values are strings. Non-string values in a widget's attrs (such as `True`) are not modelled.
- The caller's attrs dict is mutated in place by the processes and so is shared with the caller. The model treats it as a value passed along the chain.
- A truthy filter argument that is not a bound field is not modelled; a field argument is either falsy or a bound field. In the source such a value fails with `AttributeError` wherever a wrapper would be added (reading `field.as_widget`, line 34), while `add_error_class` without errors (lines 79-81) and a `render_field` tag with no pairs (lines 153-160) return it unchanged.
- `hasattr(field, 'errors') and field.errors` is reduced to one boolean per field.
