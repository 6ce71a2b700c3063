/** Macro names, values and the macro state shared by every header context. */
module Macros {

  type FileId = nat

  /** A macro is either one the program names, or the marker macro that stands for
      "this file has executed #pragma once". */
  datatype MacroName = Named(text: string) | OnceMarker(file: FileId)

  /** The macros a program can ask for or change by name. */
  type ProgramMacro = n: MacroName | n.Named? witness Named("")

  /** `Undefined` is the explicit value an #undef leaves behind. */
  datatype MacroValue = Undefined | Text(text: string)

  type MacroMap = map<MacroName, MacroValue>

  /** A macro together with the value it was seen to have. */
  type Macro = (MacroName, MacroValue)

  function Lookup(m: MacroMap, name: MacroName): MacroValue {
    if name in m then m[name] else Undefined
  }

  /** Every recorded pair has the value the state gives it. */
  predicate Matches(path: seq<Macro>, m: MacroMap) {
    forall i :: 0 <= i < |path| ==> Lookup(m, path[i].0) == path[i].1
  }

  predicate Mentions(path: seq<Macro>, name: MacroName) {
    exists i :: 0 <= i < |path| && path[i].0 == name
  }

  predicate DistinctNames(path: seq<Macro>) {
    forall i, j :: 0 <= i < j < |path| ==> path[i].0 != path[j].0
  }

  lemma MentionsAppend(path: seq<Macro>, p: Macro)
    ensures forall n :: Mentions(path + [p], n) <==> Mentions(path, n) || n == p.0
  {
    forall n
      ensures Mentions(path + [p], n) <==> Mentions(path, n) || n == p.0
    {
      assert (path + [p])[|path|] == p;
      if Mentions(path, n) {
        var i :| 0 <= i < |path| && path[i].0 == n;
        assert (path + [p])[i].0 == n;
      }
    }
  }

  class MacroState {
    var values: MacroMap

    constructor ()
      ensures values == map[]
    {
      values := map[];
    }

    method DefineMacro(name: MacroName, value: MacroValue)
      modifies this
      ensures values == old(values)[name := value]
    {
      values := values[name := value];
    }

    method UndefineMacro(name: MacroName)
      modifies this
      ensures values == old(values)[name := Undefined]
    {
      DefineMacro(name, Undefined);
    }

    method GetMacroValue(name: MacroName) returns (value: MacroValue)
      ensures value == Lookup(values, name)
    {
      if name in values {
        value := values[name];
      } else {
        value := Undefined;
      }
    }
  }
}
