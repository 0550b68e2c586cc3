/**
 * The pure helpers of the GoJS diagram service: the visibility symbol, the
 * parameter list of a method row, the converters of the property and method rows,
 * the next free node key and the link-key rule the graph model calls.
 */
module DiagramHelpers {
  import opened Wrappers
  import opened Text
  import opened DiagramTypes

  // ---------------------------------------------------------------------------
  // Visibility
  // ---------------------------------------------------------------------------

  /** The UML visibility symbols, by visibility name. */
  const VisibilitySymbols: map<string, string> := map["public" := "+", "private" := "-", "protected" := "#", "package" := "~"]

  /** `convertVisibility`: the symbol of a known visibility, any other text unchanged. */
  function ConvertVisibility(v: string): (r: string)
    ensures v in VisibilitySymbols ==> r == VisibilitySymbols[v] && |r| == 1
    ensures v !in VisibilitySymbols ==> r == v
  {
    if v in VisibilitySymbols then VisibilitySymbols[v] else v
  }

  /** A symbol is not itself a visibility name, so converting twice is converting once. */
  lemma ConvertVisibilityIdempotent(v: string)
    ensures ConvertVisibility(ConvertVisibility(v)) == ConvertVisibility(v)
  {
    if v in VisibilitySymbols {
      assert forall k :: k in VisibilitySymbols ==> |k| > 1;
    }
  }

  // ---------------------------------------------------------------------------
  // Parameter lists
  // ---------------------------------------------------------------------------

  function ParameterText(p: Parameter): string {
    p.name + ": " + p.typ
  }

  function ParameterTexts(ps: seq<Parameter>): (r: seq<string>)
    ensures |r| == |ps|
    ensures forall i :: 0 <= i < |ps| ==> r[i] == ParameterText(ps[i])
  {
    if ps == [] then [] else [ParameterText(ps[0])] + ParameterTexts(ps[1..])
  }

  /** The parameter list as `(name: type, ...)`; a missing list shows as `()`. */
  function ParameterList(ps: Option<seq<Parameter>>): string {
    "(" + Join(ParameterTexts(ps.GetOr([])), ", ") + ")"
  }

  /** `formatParameters`: the loop that appends `, ` before every item but the first. */
  method FormatParameters(ps: Option<seq<Parameter>>) returns (s: string)
    ensures s == ParameterList(ps)
    ensures |s| >= 2 && s[0] == '(' && s[|s| - 1] == ')'
    ensures ps.None? || ps.value == [] ==> s == "()"
  {
    var items := ps.GetOr([]);
    var texts := ParameterTexts(items);
    var body := "";
    var i := 0;
    while i < |items|
      invariant 0 <= i <= |items|
      invariant body == Join(texts[..i], ", ")
    {
      if i > 0 {
        body := body + ", ";
        JoinSnoc(texts[..i], texts[i], ", ");
      }
      assert texts[..i + 1] == texts[..i] + [texts[i]];
      body := body + ParameterText(items[i]);
      i := i + 1;
    }
    assert texts[..|items|] == texts;
    s := "(" + body + ")";
  }

  // ---------------------------------------------------------------------------
  // Row converters
  // ---------------------------------------------------------------------------

  /** JavaScript truthiness of an optional text: present and not empty. */
  predicate Truthy(t: Option<string>) {
    t.Some? && t.value != ""
  }

  /** The separator before a type: `: ` exactly when there is a type. */
  function TypeSeparator(typ: Option<string>): (r: string)
    ensures r == ": " || r == ""
    ensures r != "" <==> Truthy(typ)
  {
    if Truthy(typ) then ": " else ""
  }

  /** The default-value text: ` = d` exactly when there is a default `d`. */
  function DefaultText(default: Option<string>): (r: string)
    ensures r != "" <==> Truthy(default)
    ensures Truthy(default) ==> |r| > 3 && r[..3] == " = " && r[3..] == default.value
  {
    if Truthy(default) then " = " + default.value else ""
  }

  /** A member is underlined (static) exactly when its scope starts with `c` (`class`). */
  function IsUnderlined(scope: Option<string>): (r: bool)
    ensures r <==> scope.Some? && |scope.value| > 0 && scope.value[0] == 'c'
  {
    match scope
    case None => false
    case Some(s) => |s| > 0 && s[0] == 'c'
  }

  /** The text a property row shows: symbol, name, separator, type, default. */
  function PropertyRow(p: DiagramProperty): string {
    ConvertVisibility(p.visibility) + p.name + TypeSeparator(Some(p.typ)) + p.typ + DefaultText(p.default)
  }

  /**
   * A typed property with a default reads `symbol name: type = default`; an untyped
   * one without a default is just `symbol name`.
   */
  lemma PropertyRowShape(p: DiagramProperty)
    ensures p.typ != "" && Truthy(p.default) ==>
      PropertyRow(p) == ConvertVisibility(p.visibility) + p.name + ": " + p.typ + " = " + p.default.value
    ensures p.typ == "" && !Truthy(p.default) ==> PropertyRow(p) == ConvertVisibility(p.visibility) + p.name
  {
  }

  /** The text a method row shows: symbol, name, parameter list, separator, type. */
  function MethodRow(m: DiagramMethod): string {
    ConvertVisibility(m.visibility) + m.name + ParameterList(m.parameters) + TypeSeparator(m.typ) + m.typ.GetOr("")
  }

  /**
   * A method without parameters or a type reads `symbol name()`; a typed one reads
   * `symbol name(params): type`.
   */
  lemma MethodRowShape(m: DiagramMethod)
    ensures (m.parameters.None? || m.parameters.value == []) && m.typ.None? ==>
      MethodRow(m) == ConvertVisibility(m.visibility) + m.name + "()"
    ensures Truthy(m.typ) ==>
      MethodRow(m) == ConvertVisibility(m.visibility) + m.name + ParameterList(m.parameters) + ": " + m.typ.value
  {
    if m.parameters.None? || m.parameters.value == [] {
      assert ParameterTexts(m.parameters.GetOr([])) == [];
    }
  }

  // ---------------------------------------------------------------------------
  // Keys
  // ---------------------------------------------------------------------------

  /** The largest key, or 0 when there is none or all are below 0. */
  function MaxOrZero(keys: seq<int>): (r: int)
    ensures r >= 0
    ensures forall i :: 0 <= i < |keys| ==> keys[i] <= r
    ensures r == 0 || r in keys
  {
    if keys == [] then 0
    else
      var m := MaxOrZero(keys[..|keys| - 1]);
      if keys[|keys| - 1] > m then keys[|keys| - 1] else m
  }

  /** `generateUniqueKey`: one more than the largest node key, never below 1. */
  method GenerateUniqueKey(keys: seq<int>) returns (k: int)
    ensures k == MaxOrZero(keys) + 1
    ensures k >= 1 && forall i :: 0 <= i < |keys| ==> keys[i] < k
    ensures k !in keys
  {
    var maxKey := 0;
    var i := 0;
    while i < |keys|
      invariant 0 <= i <= |keys|
      invariant maxKey == MaxOrZero(keys[..i])
    {
      assert keys[..i + 1][..i] == keys[..i];
      if keys[i] > maxKey {
        maxKey := keys[i];
      }
      i := i + 1;
    }
    assert keys[..|keys|] == keys;
    k := maxKey + 1;
  }

  /**
   * `makeUniqueLinkKey`: with a non-empty key property name, the link's existing key,
   * or else `generated` stored under that name; with no usable name, no key and no change.
   * The graph model's key generator is the parameter `generated`.
   */
  function MakeUniqueLinkKey<V>(keyProperty: Option<string>, data: map<string, V>, generated: V)
    : (r: (Option<V>, map<string, V>))
    ensures !Truthy(keyProperty) ==> r.0 == None && r.1 == data
    ensures Truthy(keyProperty) && keyProperty.value in data ==> r.0 == Some(data[keyProperty.value]) && r.1 == data
    ensures Truthy(keyProperty) && keyProperty.value !in data ==>
      r.0 == Some(generated) && r.1.Keys == data.Keys + {keyProperty.value}
      && r.1[keyProperty.value] == generated
      && forall k :: k in data ==> r.1[k] == data[k]
  {
    if !Truthy(keyProperty) then (None, data)
    else
      var k := keyProperty.value;
      if k in data then (Some(data[k]), data)
      else (Some(generated), data[k := generated])
  }

  /** Once a link has a key, asking again returns the same key and changes nothing. */
  lemma LinkKeyIsStable<V>(keyProperty: Option<string>, data: map<string, V>, generated: V, other: V)
    ensures var (key, data') := MakeUniqueLinkKey(keyProperty, data, generated);
      MakeUniqueLinkKey(keyProperty, data', other) == (key, data')
  {
  }
}
