/**
 * The class editor panel: the reactive form built from a diagram node, its list
 * edits, its validators and error messages, and the node it hands back on submit.
 */
module ClassEditor {
  import opened Wrappers
  import opened Text
  import opened DiagramTypes
  import opened FormArrays

  // ---------------------------------------------------------------------------
  // Form values
  // ---------------------------------------------------------------------------

  datatype ParameterForm = ParameterForm(name: string, typ: string)

  datatype PropertyForm = PropertyForm(name: string, typ: string, visibility: string, default: string)

  datatype MethodForm = MethodForm(name: string, typ: string, visibility: string, parameters: seq<ParameterForm>)

  datatype EditorForm = EditorForm(name: string, properties: seq<PropertyForm>, methods: seq<MethodForm>)

  /** `x || ''` for an optional text. */
  function OrEmpty(t: Option<string>): (r: string)
    ensures t.Some? ==> r == t.value
    ensures t.None? ==> r == ""
  {
    if t.Some? && t.value != "" then t.value else ""
  }

  /** `createParameterGroup`: the parameter's fields, empty when there is no parameter. */
  function CreateParameterGroup(p: Option<Parameter>): (r: ParameterForm)
    ensures p.None? ==> r == ParameterForm("", "")
    ensures p.Some? ==> r == ParameterForm(p.value.name, p.value.typ)
  {
    match p
    case None => ParameterForm("", "")
    case Some(q) => ParameterForm(q.name, q.typ)
  }

  function ParameterGroups(ps: seq<Parameter>): (r: seq<ParameterForm>)
    ensures |r| == |ps|
    ensures forall i :: 0 <= i < |ps| ==> r[i] == CreateParameterGroup(Some(ps[i]))
  {
    if ps == [] then [] else [CreateParameterGroup(Some(ps[0]))] + ParameterGroups(ps[1..])
  }

  /** `createPropertyGroup`: a missing default becomes `''`. */
  function CreatePropertyGroup(p: DiagramProperty): (r: PropertyForm)
    ensures r.name == p.name && r.typ == p.typ && r.visibility == p.visibility
    ensures r.default == OrEmpty(p.default)
  {
    PropertyForm(p.name, p.typ, p.visibility, OrEmpty(p.default))
  }

  /** `createMethodGroup`: a missing type becomes `''`, missing parameters an empty list. */
  function CreateMethodGroup(m: DiagramMethod): (r: MethodForm)
    ensures r.name == m.name && r.visibility == m.visibility && r.typ == OrEmpty(m.typ)
    ensures m.parameters.None? ==> r.parameters == []
    ensures m.parameters.Some? ==>
      && |r.parameters| == |m.parameters.value|
      && (forall i :: 0 <= i < |r.parameters| ==>
            r.parameters[i].name == m.parameters.value[i].name && r.parameters[i].typ == m.parameters.value[i].typ)
  {
    MethodForm(m.name, OrEmpty(m.typ), m.visibility, ParameterGroups(m.parameters.GetOr([])))
  }

  function PropertyGroups(ps: seq<DiagramProperty>): (r: seq<PropertyForm>)
    ensures |r| == |ps|
    ensures forall i :: 0 <= i < |ps| ==> r[i] == CreatePropertyGroup(ps[i])
  {
    if ps == [] then [] else [CreatePropertyGroup(ps[0])] + PropertyGroups(ps[1..])
  }

  function MethodGroups(ms: seq<DiagramMethod>): (r: seq<MethodForm>)
    ensures |r| == |ms|
    ensures forall i :: 0 <= i < |ms| ==> r[i] == CreateMethodGroup(ms[i])
  {
    if ms == [] then [] else [CreateMethodGroup(ms[0])] + MethodGroups(ms[1..])
  }

  /** `initForm`: the node's name, one group per property and one per method, in order. */
  function InitForm(node: DiagramNode): (r: EditorForm)
    ensures r.name == node.name
    ensures |r.properties| == |node.properties| && |r.methods| == |node.methods|
    ensures forall i :: 0 <= i < |node.properties| ==> r.properties[i] == CreatePropertyGroup(node.properties[i])
    ensures forall i :: 0 <= i < |node.methods| ==> r.methods[i] == CreateMethodGroup(node.methods[i])
  {
    EditorForm(node.name, PropertyGroups(node.properties), MethodGroups(node.methods))
  }

  // ---------------------------------------------------------------------------
  // List edits
  // ---------------------------------------------------------------------------

  const NewProperty := PropertyForm("", "", "public", "")
  const NewMethod := MethodForm("", "", "public", [])

  /** `addProperty`: one empty public property appended. */
  function AddProperty(f: EditorForm): (r: EditorForm)
    ensures r.properties == f.properties + [NewProperty]
    ensures r.name == f.name && r.methods == f.methods
  {
    f.(properties := f.properties + [CreatePropertyGroup(DiagramProperty("", "", "public", None, None))])
  }

  /** `addMethod`: one empty public method without parameters appended. */
  function AddMethod(f: EditorForm): (r: EditorForm)
    ensures r.methods == f.methods + [NewMethod]
    ensures r.name == f.name && r.properties == f.properties
  {
    f.(methods := f.methods + [CreateMethodGroup(DiagramMethod("", Some([]), "public", None, None))])
  }

  /** `methods.at(i)` names a method; any other index makes the source throw. */
  predicate NamesMethod(f: EditorForm, methodIndex: int) {
    NamesEntry(|f.methods|, methodIndex)
  }

  /** `addParameterToMethod`: one empty parameter appended to the named method only. */
  function AddParameterToMethod(f: EditorForm, methodIndex: int): (r: EditorForm)
    requires NamesMethod(f, methodIndex)
    ensures var m := AdjustIndex(|f.methods|, methodIndex);
      && |r.methods| == |f.methods|
      && r.methods[m] == f.methods[m].(parameters := f.methods[m].parameters + [ParameterForm("", "")])
      && (forall k :: 0 <= k < |f.methods| && k != m ==> r.methods[k] == f.methods[k])
      && r.name == f.name && r.properties == f.properties
  {
    var m := AdjustIndex(|f.methods|, methodIndex);
    var target := f.methods[m];
    f.(methods := f.methods[m := target.(parameters := target.parameters + [CreateParameterGroup(None)])])
  }

  /** `removeProperty`: the property list loses the entry `removeAt` names; nothing else changes. */
  function RemoveProperty(f: EditorForm, index: int): (r: EditorForm)
    ensures r.name == f.name && r.methods == f.methods
    ensures NamesEntry(|f.properties|, index) ==>
      |r.properties| == |f.properties| - 1
      && multiset(r.properties) + multiset{f.properties[AdjustIndex(|f.properties|, index)]} == multiset(f.properties)
    ensures !NamesEntry(|f.properties|, index) && index >= 0 ==> r == f
    ensures r.properties == RemoveAt(f.properties, index)
  {
    f.(properties := RemoveAt(f.properties, index))
  }

  /** `removeMethod`: the method list loses the entry `removeAt` names; nothing else changes. */
  function RemoveMethod(f: EditorForm, index: int): (r: EditorForm)
    ensures r.name == f.name && r.properties == f.properties
    ensures NamesEntry(|f.methods|, index) ==>
      |r.methods| == |f.methods| - 1
      && multiset(r.methods) + multiset{f.methods[AdjustIndex(|f.methods|, index)]} == multiset(f.methods)
    ensures !NamesEntry(|f.methods|, index) && index >= 0 ==> r == f
    ensures r.methods == RemoveAt(f.methods, index)
  {
    f.(methods := RemoveAt(f.methods, index))
  }

  /** `removeParameter`: the parameter list of the named method only loses the indexed entry. */
  function RemoveParameter(f: EditorForm, methodIndex: int, paramIndex: int): (r: EditorForm)
    requires NamesMethod(f, methodIndex)
    ensures var m := AdjustIndex(|f.methods|, methodIndex);
      && |r.methods| == |f.methods|
      && r.methods[m] == f.methods[m].(parameters := RemoveAt(f.methods[m].parameters, paramIndex))
      && (forall k :: 0 <= k < |f.methods| && k != m ==> r.methods[k] == f.methods[k])
      && r.name == f.name && r.properties == f.properties
  {
    var m := AdjustIndex(|f.methods|, methodIndex);
    var target := f.methods[m];
    f.(methods := f.methods[m := target.(parameters := RemoveAt(target.parameters, paramIndex))])
  }

  /** Adding a parameter and removing the last one gives the form back. */
  lemma AddThenRemoveParameter(f: EditorForm, methodIndex: int)
    requires NamesMethod(f, methodIndex)
    ensures var m := AdjustIndex(|f.methods|, methodIndex);
      RemoveParameter(AddParameterToMethod(f, methodIndex), methodIndex, |f.methods[m].parameters|) == f
  {
    var m := AdjustIndex(|f.methods|, methodIndex);
    var g := AddParameterToMethod(f, methodIndex);
    var ps := f.methods[m].parameters;
    RemoveAtAfterAppend(ps, ParameterForm("", ""));
    assert RemoveParameter(g, methodIndex, |ps|).methods == f.methods;
  }

  /** Adding a property and removing the last one gives the form back. */
  lemma AddThenRemoveProperty(f: EditorForm)
    ensures RemoveProperty(AddProperty(f), |f.properties|) == f
  {
    RemoveAtAfterAppend(f.properties, NewProperty);
  }

  // ---------------------------------------------------------------------------
  // Validators and messages
  // ---------------------------------------------------------------------------

  /** One text control and its validators: `required` and an optional `minLength`. */
  datatype FieldControl = FieldControl(value: string, required: bool, minLength: Option<nat>)

  /** `Validators.required`: the value is empty. */
  predicate RequiredError(c: FieldControl) {
    c.required && c.value == ""
  }

  /** `Validators.minLength`: a non-empty value shorter than the bound (an empty value passes it). */
  predicate MinLengthError(c: FieldControl) {
    c.minLength.Some? && c.value != "" && |c.value| < c.minLength.value
  }

  predicate ControlValid(c: FieldControl) {
    !RequiredError(c) && !MinLengthError(c)
  }

  function NameControl(f: EditorForm): FieldControl { FieldControl(f.name, true, Some(2)) }

  predicate PropertyValid(p: PropertyForm) {
    && ControlValid(FieldControl(p.name, true, Some(1)))
    && ControlValid(FieldControl(p.typ, true, None))
    && ControlValid(FieldControl(p.visibility, true, None))
  }

  predicate ParameterValid(p: ParameterForm) {
    ControlValid(FieldControl(p.name, true, Some(1))) && ControlValid(FieldControl(p.typ, true, None))
  }

  predicate MethodValid(m: MethodForm) {
    && ControlValid(FieldControl(m.name, true, Some(1)))
    && ControlValid(FieldControl(m.visibility, true, None))
    && forall k :: 0 <= k < |m.parameters| ==> ParameterValid(m.parameters[k])
  }

  /** The whole form is valid when every control is. */
  predicate FormValid(f: EditorForm) {
    && ControlValid(NameControl(f))
    && (forall k :: 0 <= k < |f.properties| ==> PropertyValid(f.properties[k]))
    && (forall k :: 0 <= k < |f.methods| ==> MethodValid(f.methods[k]))
  }

  /** The validity rules in plain terms: class names of two or more characters, every other name non-empty. */
  lemma FormValidMeans(f: EditorForm)
    ensures FormValid(f) <==>
      && |f.name| >= 2
      && (forall k :: 0 <= k < |f.properties| ==>
            f.properties[k].name != "" && f.properties[k].typ != "" && f.properties[k].visibility != "")
      && (forall k :: 0 <= k < |f.methods| ==>
            && f.methods[k].name != "" && f.methods[k].visibility != ""
            && forall j :: 0 <= j < |f.methods[k].parameters| ==>
                 f.methods[k].parameters[j].name != "" && f.methods[k].parameters[j].typ != "")
  {
  }

  /**
   * `getErrorMessage`: nothing for a missing control, then the `required` message,
   * then the `minlength` message with the bound, and nothing for a valid control.
   */
  function GetErrorMessage(control: Option<FieldControl>, field: string): (r: string)
    ensures r == "" <==> control.None? || ControlValid(control.value)
    ensures control.Some? && RequiredError(control.value) ==> r == field + " is required"
    ensures control.Some? && MinLengthError(control.value) ==>
      r == field + " must be at least " + NatToString(control.value.minLength.value) + " characters"
  {
    match control
    case None => ""
    case Some(c) =>
      if RequiredError(c) then field + " is required"
      else if MinLengthError(c) then field + " must be at least " + NatToString(c.minLength.value) + " characters"
      else ""
  }

  /** The two errors exclude each other, so the message order never hides one behind the other. */
  lemma RequiredAndMinLengthExclusive(c: FieldControl)
    ensures !(RequiredError(c) && MinLengthError(c))
  {
  }

  // ---------------------------------------------------------------------------
  // Submit
  // ---------------------------------------------------------------------------

  /** A property's form value as a diagram property: the form has no `scope` control. */
  function PropertyValue(p: PropertyForm): DiagramProperty {
    DiagramProperty(p.name, p.typ, p.visibility, Some(p.default), None)
  }

  function ParameterValue(p: ParameterForm): Parameter {
    Parameter(p.name, p.typ)
  }

  function ParameterValues(ps: seq<ParameterForm>): (r: seq<Parameter>)
    ensures |r| == |ps|
    ensures forall i :: 0 <= i < |ps| ==> r[i] == ParameterValue(ps[i])
  {
    if ps == [] then [] else [ParameterValue(ps[0])] + ParameterValues(ps[1..])
  }

  /** A method's form value, its parameters always a list. */
  function MethodValue(m: MethodForm): DiagramMethod {
    DiagramMethod(m.name, Some(ParameterValues(m.parameters)), m.visibility, Some(m.typ), None)
  }

  function PropertyValues(ps: seq<PropertyForm>): (r: seq<DiagramProperty>)
    ensures |r| == |ps|
    ensures forall i :: 0 <= i < |ps| ==> r[i] == PropertyValue(ps[i])
  {
    if ps == [] then [] else [PropertyValue(ps[0])] + PropertyValues(ps[1..])
  }

  function MethodValues(ms: seq<MethodForm>): (r: seq<DiagramMethod>)
    ensures |r| == |ms|
    ensures forall i :: 0 <= i < |ms| ==> r[i] == MethodValue(ms[i])
  {
    if ms == [] then [] else [MethodValue(ms[0])] + MethodValues(ms[1..])
  }

  /**
   * `onSubmit`: nothing for an invalid form; otherwise the original node with the
   * form's name, properties and methods. Key and interface flag are kept, every
   * method has a parameter list, and no member keeps a `scope`.
   */
  function OnSubmit(node: DiagramNode, f: EditorForm): (r: Option<DiagramNode>)
    ensures r.Some? <==> FormValid(f)
    ensures r.Some? ==>
      && r.value.key == node.key && r.value.isInterface == node.isInterface
      && r.value.name == f.name
      && |r.value.properties| == |f.properties| && |r.value.methods| == |f.methods|
      && (forall i :: 0 <= i < |f.properties| ==> r.value.properties[i].scope.None?)
      && (forall i :: 0 <= i < |f.methods| ==>
            r.value.methods[i].parameters.Some? && r.value.methods[i].scope.None?
            && |r.value.methods[i].parameters.value| == |f.methods[i].parameters|)
    ensures r.Some? ==>
      && (forall i :: 0 <= i < |f.properties| ==> r.value.properties[i] == PropertyValue(f.properties[i]))
      && (forall i :: 0 <= i < |f.methods| ==> r.value.methods[i] == MethodValue(f.methods[i]))
  {
    if FormValid(f) then
      Some(node.(name := f.name, properties := PropertyValues(f.properties), methods := MethodValues(f.methods)))
    else None
  }

  /**
   * What an unedited form gives back: the node with missing defaults and types
   * as `''`, missing parameter lists as empty lists, and scopes dropped.
   */
  function Normalized(node: DiagramNode): DiagramNode {
    node.(properties := seq(|node.properties|, i requires 0 <= i < |node.properties| =>
                          node.properties[i].(default := Some(OrEmpty(node.properties[i].default)), scope := None)),
          methods := seq(|node.methods|, i requires 0 <= i < |node.methods| =>
                          node.methods[i].(typ := Some(OrEmpty(node.methods[i].typ)),
                                           parameters := Some(node.methods[i].parameters.GetOr([])),
                                           scope := None)))
  }

  lemma {:induction false} ParametersRoundTrip(ps: seq<Parameter>)
    ensures ParameterValues(ParameterGroups(ps)) == ps
  {
    var r := ParameterValues(ParameterGroups(ps));
    assert |r| == |ps|;
    forall i | 0 <= i < |ps|
      ensures r[i] == ps[i]
    {
    }
  }

  /** Opening the editor on a node and submitting it unchanged gives the normalized node. */
  lemma UnchangedSubmitNormalizes(node: DiagramNode)
    requires FormValid(InitForm(node))
    ensures OnSubmit(node, InitForm(node)) == Some(Normalized(node))
  {
    var f := InitForm(node);
    var n := Normalized(node);
    var props := PropertyValues(f.properties);
    assert |props| == |n.properties|;
    forall i | 0 <= i < |props|
      ensures props[i] == n.properties[i]
    {
    }
    assert props == n.properties;
    var methods := MethodValues(f.methods);
    assert |methods| == |n.methods|;
    forall i | 0 <= i < |methods|
      ensures methods[i] == n.methods[i]
    {
      ParametersRoundTrip(node.methods[i].parameters.GetOr([]));
    }
    assert methods == n.methods;
  }
}
