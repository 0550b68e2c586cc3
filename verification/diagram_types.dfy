/**
 * The class-diagram records shared by the class editor and the generators: a node is
 * a class (or interface) with its properties and methods. Optional fields of the
 * records are `Option`s (a method's parameter list may be absent from stored data);
 * a node key is an integer.
 */
module DiagramTypes {
  import opened Wrappers

  datatype Parameter = Parameter(name: string, typ: string)

  datatype DiagramProperty = DiagramProperty(
    name: string,
    typ: string,
    visibility: string,
    default: Option<string>,
    scope: Option<string>)

  datatype DiagramMethod = DiagramMethod(
    name: string,
    parameters: Option<seq<Parameter>>,
    visibility: string,
    typ: Option<string>,
    scope: Option<string>)

  datatype DiagramNode = DiagramNode(
    isInterface: bool,
    key: int,
    name: string,
    properties: seq<DiagramProperty>,
    methods: seq<DiagramMethod>)
}
