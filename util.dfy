/**
 * `get_module_script` (wawebpy/util.py): the JavaScript expression that reaches into one of
 * WhatsApp Web's internal modules, `require('<module>')`, then a chain of property accesses,
 * then optionally a call. Arguments are already strings here (`map(str, args)` is the identity).
 */
module Util {
  import opened Wrappers
  import opened Strings

  /** `require('<module>')`. */
  function Require(moduleName: string): string {
    "require('" + moduleName + "')"
  }

  /** One property access per variable, whitespace-stripped, in order. */
  function Accessors(variables: seq<string>): string
    decreases |variables|
  {
    if variables == [] then ""
    else Accessors(variables[..|variables| - 1]) + "." + Strip(variables[|variables| - 1], Whitespace)
  }

  /** The called function's name: whitespace stripped first, then dots. */
  function CalledName(functionName: string): string {
    Strip(Strip(functionName, Whitespace), {'.'})
  }

  /** The call suffix: `.<name>(` or just `(`, the arguments joined by ", ", and `)`. */
  function Call(functionName: Option<string>, args: seq<string>): string {
    (if functionName.Some? then "." + CalledName(functionName.value) + "(" else "(") + Join(args, ", ") + ")"
  }

  /** The whole expression; `None` stands for an argument left at its default `None`. */
  function ModuleScript(moduleName: string, variables: Option<seq<string>>, functionName: Option<string>,
                        args: Option<seq<string>>): string
  {
    Require(moduleName) + (if variables.Some? then Accessors(variables.value) else "") +
    (if args.Some? then Call(functionName, args.value) else "")
  }

  /** `get_module_script`: builds `ret` step by step; the result is ModuleScript. */
  method GetModuleScript(moduleName: string, variables: Option<seq<string>>, functionName: Option<string>,
                         args: Option<seq<string>>) returns (ret: string)
    ensures ret == ModuleScript(moduleName, variables, functionName, args)
  {
    ret := "require('" + moduleName + "')";
    if variables.Some? {
      var vs := variables.value;
      for i := 0 to |vs|
        invariant ret == Require(moduleName) + Accessors(vs[..i])
      {
        var variable := Strip(vs[i], Whitespace);
        AccessorsSnoc(vs, i);
        AppendAssoc(Require(moduleName), Accessors(vs[..i]), ".");
        AppendAssoc(Require(moduleName), Accessors(vs[..i]) + ".", variable);
        ret := ret + "." + variable;
      }
      assert vs[..|vs|] == vs;
    }
    assert ret == Require(moduleName) + (if variables.Some? then Accessors(variables.value) else "");
    if args.Some? {
      ghost var head := ret;
      var opening;
      if functionName.Some? {
        var name := Strip(Strip(functionName.value, Whitespace), {'.'});
        opening := "." + name + "(";
        ret := ret + "." + name + "(";
        AppendAssoc(head, ".", name);
        AppendAssoc(head, "." + name, "(");
      } else {
        opening := "(";
        ret := ret + "(";
      }
      var joined := Join(args.value, ", ");
      ret := ret + joined;
      AppendAssoc(head, opening, joined);
      ret := ret + ")";
      AppendAssoc(head, opening + joined, ")");
    } else {
      assert ret == ret + "";
    }
  }

  lemma AccessorsSnoc(vs: seq<string>, i: int)
    requires 0 <= i < |vs|
    ensures Accessors(vs[..i + 1]) == Accessors(vs[..i]) + "." + Strip(vs[i], Whitespace)
  {
    assert vs[..i + 1][..i] == vs[..i];
  }

  lemma AppendAssoc(a: string, b: string, c: string)
    ensures (a + b) + c == a + (b + c)
  {
  }

  // ---------------------------------------------------------------- properties

  /** Property accesses compose: the variables of `a + b` give `a`'s accesses, then `b`'s. */
  lemma {:induction false} AccessorsAppend(a: seq<string>, b: seq<string>)
    ensures Accessors(a + b) == Accessors(a) + Accessors(b)
    decreases |b|
  {
    if b == [] {
      assert a + b == a;
      assert Accessors(a) + "" == Accessors(a);
    } else {
      var b' := b[..|b| - 1];
      var last := "." + Strip(b[|b| - 1], Whitespace);
      assert Accessors(a + b) == Accessors(a + b') + last by {
        assert (a + b)[..|a + b| - 1] == a + b';
        assert (a + b)[|a + b| - 1] == b[|b| - 1];
        AppendAssoc(Accessors(a + b'), ".", Strip(b[|b| - 1], Whitespace));
      }
      assert Accessors(b) == Accessors(b') + last by {
        AppendAssoc(Accessors(b'), ".", Strip(b[|b| - 1], Whitespace));
      }
      AccessorsAppend(a, b');
      AppendAssoc(Accessors(a), Accessors(b'), last);
    }
  }

  /** Each variable contributes exactly "." and itself stripped of whitespace, at its place. */
  lemma AccessorsOfOne(v: string)
    ensures Accessors([v]) == "." + Strip(v, Whitespace)
  {
    assert [v][..0] == [];
  }

  lemma PrefixOfAppend(a: string, b: string)
    ensures a <= a + b
  {
    assert (a + b)[..|a|] == a;
  }

  /** The expression always starts with `require('<module>')` and the accesses, in order. */
  lemma ScriptStartsWithRequire(moduleName: string, variables: Option<seq<string>>, functionName: Option<string>,
                                args: Option<seq<string>>)
    ensures Require(moduleName) <= ModuleScript(moduleName, variables, functionName, args)
    ensures variables.Some? ==> Require(moduleName) + Accessors(variables.value) <= ModuleScript(moduleName, variables, functionName, args)
  {
    var acc := if variables.Some? then Accessors(variables.value) else "";
    var call := if args.Some? then Call(functionName, args.value) else "";
    assert ModuleScript(moduleName, variables, functionName, args) == (Require(moduleName) + acc) + call;
    AppendAssoc(Require(moduleName), acc, call);
    PrefixOfAppend(Require(moduleName), acc + call);
    PrefixOfAppend(Require(moduleName) + acc, call);
  }

  /**
   * Without `args` there is no call suffix and the function name is ignored; with neither
   * variables nor args the expression is exactly `require('<module>')`.
   */
  lemma ScriptWithoutArgs(moduleName: string, variables: Option<seq<string>>, functionName: Option<string>)
    ensures ModuleScript(moduleName, variables, functionName, None) == ModuleScript(moduleName, variables, None, None)
    ensures ModuleScript(moduleName, None, functionName, None) == "require('" + moduleName + "')"
    ensures variables.Some? ==> ModuleScript(moduleName, variables, functionName, None) == Require(moduleName) + Accessors(variables.value)
  {
    assert Require(moduleName) + "" + "" == Require(moduleName);
    assert Require(moduleName) + "" == Require(moduleName);
  }

  /** The parts of the expression with a call: the head, the opening, the arguments and ")". */
  lemma ScriptWithCall(moduleName: string, variables: Option<seq<string>>, functionName: Option<string>,
                       args: seq<string>)
    ensures ModuleScript(moduleName, variables, functionName, Some(args)) ==
      (Require(moduleName) + (if variables.Some? then Accessors(variables.value) else "")) +
      (((if functionName.Some? then "." + CalledName(functionName.value) else "") + "(") + Join(args, ", ") + ")")
  {
    var pre := if functionName.Some? then "." + CalledName(functionName.value) else "";
    assert Call(functionName, args) == ((pre + "(") + Join(args, ", ")) + ")" by {
      if functionName.None? {
        assert "" + "(" == "(";
      }
    }
  }

  /** Whatever precedes it, a call suffix ends the string, and so does its closing parenthesis. */
  lemma CallEnds(head: string, pre: string, joined: string)
    ensures EndsWith(head + (((pre + "(") + joined) + ")"), ((pre + "(") + joined) + ")")
    ensures EndsWith(head + (((pre + "(") + joined) + ")"), ")")
    ensures joined == "" ==> EndsWith(head + (((pre + "(") + joined) + ")"), "()")
  {
    var call := ((pre + "(") + joined) + ")";
    EndsWithAppend(head, call, call);
    EndsWithAppend((pre + "(") + joined, ")", ")");
    EndsWithAppend(head, call, ")");
    if joined == "" {
      assert call == pre + "()" by {
        assert (pre + "(") + "" == pre + "(";
        AppendAssoc(pre, "(", ")");
      }
      EndsWithAppend(pre, "()", "()");
      EndsWithAppend(head, call, "()");
    }
  }

  /**
   * With `args`, the expression ends with the call: `.<name>(` when a function is named, `(`
   * otherwise, then the arguments and `)`; no arguments give `()`.
   */
  lemma ScriptCallSuffix(moduleName: string, variables: Option<seq<string>>, functionName: Option<string>,
                         args: seq<string>)
    ensures EndsWith(ModuleScript(moduleName, variables, functionName, Some(args)), ")")
    ensures args == [] ==> EndsWith(ModuleScript(moduleName, variables, functionName, Some(args)), "()")
    ensures functionName.Some? ==>
      EndsWith(ModuleScript(moduleName, variables, functionName, Some(args)),
               "." + CalledName(functionName.value) + "(" + Join(args, ", ") + ")")
    ensures functionName.None? ==>
      EndsWith(ModuleScript(moduleName, variables, functionName, Some(args)), "(" + Join(args, ", ") + ")")
  {
    var head := Require(moduleName) + (if variables.Some? then Accessors(variables.value) else "");
    var pre := if functionName.Some? then "." + CalledName(functionName.value) else "";
    ScriptWithCall(moduleName, variables, functionName, args);
    CallEnds(head, pre, Join(args, ", "));
    if functionName.None? {
      assert "" + "(" == "(";
    }
  }

  lemma SpacedDotsRegroup(w: string)
    ensures " ." + w + ". " == " " + ("." + w + ".") + " "
  {
  }

  lemma StripSpacesAroundDots(w: string)
    requires w != [] && w[0] != '.' && w[|w| - 1] != '.'
    ensures Strip(" " + ("." + w + ".") + " ", Whitespace) == "." + w + "."
  {
    StripFrame(" ", "." + w + ".", " ", Whitespace);
  }

  lemma StripDotsAround(w: string)
    requires w != [] && w[0] != '.' && w[|w| - 1] != '.'
    ensures Strip("." + w + ".", {'.'}) == w
  {
    StripFrame(".", w, ".", {'.'});
  }

  lemma StripNoSpacesAround(w: string)
    requires w != [] && w[|w| - 1] !in Whitespace
    ensures Strip(". " + w, Whitespace) == ". " + w
  {
    assert ". " + w == "" + (". " + w) + "";
    StripFrame("", ". " + w, "", Whitespace);
  }

  lemma StripLeadingDot(w: string)
    requires w != [] && w[|w| - 1] != '.'
    ensures Strip(". " + w, {'.'}) == " " + w
  {
    assert ". " + w == "." + (" " + w) + "";
    StripFrame(".", " " + w, "", {'.'});
  }

  /**
   * The name is stripped of whitespace before dots, so whitespace between a surrounding dot and
   * the name survives: " .f. " calls `f`, but ". f" calls ` f`.
   */
  lemma CalledNameStripsInOrder(w: string)
    requires w != [] && w[0] != '.' && w[|w| - 1] != '.'
    ensures CalledName(" ." + w + ". ") == w
  {
    SpacedDotsRegroup(w);
    StripSpacesAroundDots(w);
    StripDotsAround(w);
  }

  lemma CalledNameKeepsInnerWhitespace(w: string)
    requires w != [] && w[|w| - 1] !in Whitespace && w[|w| - 1] != '.'
    ensures CalledName(". " + w) == " " + w
  {
    StripNoSpacesAround(w);
    StripLeadingDot(w);
  }
}
