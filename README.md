# Parameter handling of the pytocs method generator

pytocs translates Python source into C#. For every Python `def`, its
`MethodGenerator` (`src/Translate/MethodGenerator.cs`) turns the Python
parameter list into the signature of a C# method. This model covers that
parameter handling:

- **Conversion** (`CreateFunctionParameters`, `GenerateFunctionParameter`,
  `GenerateTupleParameterType`):
  - `OrderBy(ta => ta.vararg)` moves `*args` parameters to the end with a stable sort.
  - Each Python parameter becomes one `CodeParameterDeclarationExpression`:
    - a tuple-destructuring parameter becomes a nested `Tuple<...>` under a
      `_tup_` placeholder name from the symbol generator;
    - a `**kwargs` parameter becomes a `Hashtable`, and `System.Collections`
      is imported;
    - any other parameter becomes an `object` that keeps its name, its
      `params` flag and its translated default.
  - A field records which Python parameter produced which declaration.
- **Tuple unpacking** (`GenerateTupleParameterUnpackers`,
  `GenerateTupleParameterUnpacker`):
  - Each named top-level component of a tuple parameter becomes an `object`
    local, read from `Item1`, `Item2`, … of the placeholder.
  - A component named `_` gets no local, but it still takes up its position.
  - Each declaration is inserted at index 0 of the method body.
- **The forwarding overload** (both `GenerateDefaultArgMethod` overloads). It
  takes the first `iFirstDefault` parameters. It returns the call of the full
  method, passing a translated default for every later parameter that has one.
- **Assembly** (`Generate`): convert the parameters, build the method
  through the code-generation facade, then insert the unpacking declarations.

Layout, one module per file:

- `wrappers.dfy`: `Option`.
- `syntax.dfy`: the Python `Parameter`.
- `code_model.dfy`:
  - the CodeDOM values;
  - `CodeMemberMethod`, whose statement list is changed in place;
  - `CodeGenerator`, the facade, reduced to the methods it built and the
    namespaces it imports;
  - `SymbolGenerator`, a counter over an abstract name supply.
- `ordering.dfy`: the stable sort on the vararg flag.
- `conversion.dfy`: the per-parameter conversion and the parameter types.
- `unpacking.dfy`: what the unpackers declare and where.
- `forwarding.dfy`: the overload.
- `method_generator.dfy`: the `MethodGenerator` class with its imperative
  methods, and the lookup table.

How parameters are identified and specified:

- A Python parameter is identified by its index in `args`. The lookup table
  `mpPyParamToCs` is a `map<nat, ParamDecl>`.
- The methods are proved against specification functions:
  - `Converted`, `ImportsFor` and `TupleCount` for the parameter loop;
  - `InsertAll` / `InsertComponents` for the unpacking loops;
  - `ForwardParams` / `ForwardArgs` for the overload.
- Lemmas then tie those functions to independent descriptions:
  - `IsStableVarargSort` for the ordering;
  - `UnpackAll` in making order, with `Reversed`, for the unpacking;
  - the strict positional binding `Bind` for the overload, which is
    Python's positional binding of plain parameters.

This model follows the code as written:

- No parameter-ordering error is raised.
- Unpacking declarations end up in reverse order of making, because each is
  inserted at index 0. They are not in tuple-layout order.
- Nested tuple components are not unpacked recursively. A nested component
  gets a local holding the inner tuple.
- Only a single forwarding overload is built, for the given `iFirstDefault`.
  It is not one overload per omitted-default count. Nothing checks that the
  defaults form a trailing run.
- The overload passes its arguments in source order, but the full method
  declares its parameters vararg-last. So whenever a vararg parameter is
  declared before a non-vararg one (for instance `def f(a, *args, **kw)`),
  arguments reach the wrong parameters (`ForwardedArgumentsAlign`,
  `VarargKeywordSwap`).

## Model

| member | source | states |
|---|---|---|
| ParameterOrder.Positions | src/Translate/MethodGenerator.cs:111-112 | the indices of the parameters with a given vararg flag are in range, have that flag and ascend |
| ParameterOrder.SortedOrderIsStableSort | src/Translate/MethodGenerator.cs:111-112 | the visiting order `SortedOrder` of `OrderBy(ta => ta.vararg)` lists every parameter exactly once, puts no vararg parameter before a non-vararg one and keeps source order within each group |
| ParameterOrder.StableSortIsUnique | src/Translate/MethodGenerator.cs:111-112 | any order that is a stable sort on the vararg flag is that visiting order |
| ParameterOrder.SortedOrderIsSourceOrder | src/Translate/MethodGenerator.cs:111-112 | the parameters keep their source order if and only if no vararg parameter is declared before a non-vararg one |
| Conversion.TupleType | src/Translate/MethodGenerator.cs:149-155 | a tuple parameter's type is `Tuple` with one type argument per component, in component order |
| Conversion.ComponentType | src/Translate/MethodGenerator.cs:151-153 | a non-tuple component gives `object`, a tuple component a nested `Tuple` with one argument per sub-component |
| Conversion.ComponentTypeIsShape | src/Translate/MethodGenerator.cs:149-155 | two components get the same type if and only if they have the same nesting structure |
| Conversion.ConvertParameter | src/Translate/MethodGenerator.cs:118-147 | the declaration has the source parameter's kind. A tuple parameter gets its `Tuple` type and the placeholder name, and is neither `params` nor defaulted. Any other parameter is typed `Hashtable` exactly when it collects keywords (else `object`), keeps its name and vararg flag, and has a default exactly when the source does, namely its translation |
| Conversion.Converted | src/Translate/MethodGenerator.cs:111-113 | one declaration per visited parameter |
| Conversion.ConvertedAt | src/Translate/MethodGenerator.cs:111-113 | the t-th declaration is the conversion of the t-th visited parameter. A tuple parameter's placeholder is the symbol generator's name after the tuple parameters visited before it |
| Conversion.PlaceholdersDistinct | src/Translate/MethodGenerator.cs:123-128 | distinct tuple parameters get distinct placeholder names when the symbol generator never repeats a name |
| Conversion.ImportsForKeywords | src/Translate/MethodGenerator.cs:131-135 | converting adds `System.Collections` to the imports exactly when some parameter is a keyword-collecting non-tuple one, and adds nothing else |
| Unpacking.UnpackComponentsCount | src/Translate/MethodGenerator.cs:85-98 | a tuple parameter yields one declaration per component not named `_` |
| Unpacking.UnpackComponentsAt | src/Translate/MethodGenerator.cs:85-98 | the named component at 0-based position k is declared as an `object` from `Item(k+1)` of the placeholder, after the named components before it, so `_` still uses up its position |
| Unpacking.UnpackComponentsOnly | src/Translate/MethodGenerator.cs:85-98 | every declaration made for a tuple is that of one of its named components |
| Unpacking.UnpackAllContains | src/Translate/MethodGenerator.cs:81-98 | every named top-level component of every tuple parameter is declared, read from that parameter's placeholder in the lookup table |
| Unpacking.UnpackAllOnly | src/Translate/MethodGenerator.cs:81-98 | nothing else is declared: only tuple parameters contribute, one declaration per named top-level component |
| Unpacking.InsertComponentsReversed | src/Translate/MethodGenerator.cs:85-99 | inserting one tuple's declarations at index 0 one by one leaves them in reverse order of making, in front of the old body |
| Unpacking.InsertAllIsReversed | src/Translate/MethodGenerator.cs:79-99 | after all tuple parameters, the body is every declaration in reverse order of making, followed by the old body unchanged |
| Forwarding.ForwardParams | src/Translate/MethodGenerator.cs:159-164 | the overload has `min(iFirstDefault, args.Count)` parameters (none when negative). Each has type `object`, the source name and vararg flag, and no default |
| Forwarding.ForwardArgs | src/Translate/MethodGenerator.cs:165-171 | one argument per source parameter. It is a reference to that parameter's name exactly when its position is before `iFirstDefault` or it has no default, and otherwise its translated default |
| Forwarding.BindSpec | src/Translate/MethodGenerator.cs:157-171 | reference semantics for the overload. Strict positional binding (Python's positional binding of plain parameters) succeeds exactly when every parameter past the given arguments has a default. It then binds each position to its argument or its default |
| Forwarding.ForwardingMatchesBinding | src/Translate/MethodGenerator.cs:157-197 | when every parameter past the overload's own has a default, the overload's call lists, in source order, exactly what strict binding of the overload's arguments gives each source parameter. Whether the full method receives them in its own parameter order is stated by `Generator.ForwardedArgumentsAlign` |
| Forwarding.DanglingReference | src/Translate/MethodGenerator.cs:166-171 | when a parameter at or after `iFirstDefault` has no default, strict binding rejects the call, as Python does for a plain parameter. Yet the overload passes a reference to that name, which none of its parameters declares |
| Forwarding.VarargOverloadDangles | src/Translate/MethodGenerator.cs:159-171 | for `def f(a, b=1, *args)` with `iFirstDefault = 1`, the only parameter past the overload's without a default is `*args`, so `f(a)` is valid Python. Yet the overload declares only `a` and passes `a`, the translated `1` and a reference to the undeclared `args` |
| Generator.DictionaryKeys | src/Translate/MethodGenerator.cs:114 | the lookup table holds only visited source parameters |
| Generator.DictionaryLookup | src/Translate/MethodGenerator.cs:114 | over an order without repeats, every visited parameter is in the table and mapped to the declaration made at its position |
| Generator.DictionaryOfPermutation | src/Translate/MethodGenerator.cs:114 | over a permutation, the table `Dictionary` (the model of `ToDictionary`) holds exactly the source parameters, each mapped to its own declaration |
| Generator.ConvertedKeepsKind | src/Translate/MethodGenerator.cs:118-147 | the declaration at each position has the kind of the parameter visited there, keeps its name unless it is a tuple, and is `params` only for a vararg parameter |
| Generator.TableKeepsKinds | src/Translate/MethodGenerator.cs:109-116 | looked up through the table, every source parameter's declaration has that parameter's kind and, unless it is a tuple, its name |
| Generator.VarargsDeclaredLast | src/Translate/MethodGenerator.cs:109-116 | in the generated parameter list, a `params` declaration is followed only by declarations of vararg parameters |
| Generator.ForwardedArgumentsAlign | src/Translate/MethodGenerator.cs:109-116 | the overload's call has one argument per source parameter, in source order. The full method's parameter t is the declaration made for `args[SortedOrder(args)[t]]`, with that parameter's kind and (unless a tuple) name. The two orders agree at every position if and only if no vararg parameter is declared before a non-vararg one |
| Generator.VarargKeywordSwap | src/Translate/MethodGenerator.cs:109-116 | for `def f(a, *args, **kw)` with `iFirstDefault = 3`, the overload passes `a, args, kw`, but the full method declares `a`, then `kw` as `Hashtable`, then `args` as `params`. So `kw` receives the reference to `args`, and `args` the reference to `kw` |
| Generator.MethodGenerator.constructor | src/Translate/MethodGenerator.cs:45-56 | stores the name, parameters, static flag and generator. It starts a fresh symbol generator at its first name, with an empty lookup table |
| Generator.MethodGenerator.Generate | src/Translate/MethodGenerator.cs:58-61 | the new method has the function's name, its static flag and the converted parameters. The lookup table holds exactly the source parameters, and maps each to the method parameter made for it, so every unpacking declaration reads from the method's own placeholder. It is the only member added. Its body is the unpacking declarations reversed, then the translated body. Imports grow by the conversion's, and the symbol generator advances once per tuple parameter |
| Generator.MethodGenerator.GenerateFrom | src/Translate/MethodGenerator.cs:63-77 | a static or instance method as `isStatic` says, with the given parameters. The unpacking declarations come reversed in front of the translated body |
| Generator.MethodGenerator.GenerateTupleParameterUnpackers | src/Translate/MethodGenerator.cs:79-90 | the statements become those left by inserting every tuple parameter's declarations at the front, in source order |
| Generator.MethodGenerator.GenerateComponentUnpackers | src/Translate/MethodGenerator.cs:85-88 | the statements become those left by inserting one tuple's declarations at the front, in component order |
| Generator.MethodGenerator.GenerateTupleParameterUnpacker | src/Translate/MethodGenerator.cs:92-100 | inserts `UnpackOne(p, i, path)`: the declaration `object name = path.Item(i)` at index 0, or nothing for a component named `_` |
| Generator.MethodGenerator.CreateFunctionParameters | src/Translate/MethodGenerator.cs:109-116 | the result is the conversion of the parameters in stable vararg-last order. The table maps exactly the source parameters, each to its own declaration. The symbol generator advances once per tuple parameter. Imports grow as conversion requires |
| Generator.MethodGenerator.ConvertInOrder | src/Translate/MethodGenerator.cs:111-113 | converts the parameters one after another in the given order, threading the symbol generator and imports |
| Generator.MethodGenerator.GenerateFunctionParameter | src/Translate/MethodGenerator.cs:118-147 | returns the conversion of one parameter. It takes the next placeholder only for a tuple and imports `System.Collections` only for a keyword collector |
| Generator.MethodGenerator.GenerateDefaultArgMethod | src/Translate/MethodGenerator.cs:157-173 | adds exactly one member with the function's name and static flag, the forwarding parameters and a body returning the call with the forwarding arguments |
| Generator.MethodGenerator.EmitDefaultArgMethod | src/Translate/MethodGenerator.cs:175-197 | adds one static or instance method, as `isStatic` says, with the given parameters, whose body is one `return fnName(paramList)` |
| CodeModel.CodeMemberMethod.InsertFirst | src/Translate/MethodGenerator.cs:96 | `Statements.Insert(0, s)` puts `s` in front of the old statements |
| CodeModel.SymbolGenerator.GenSymParameter | src/Translate/MethodGenerator.cs:127 | hands out the next name of the supply and advances the counter |

## Left out

- The translators are assumed free of side effects on the facade and the symbol generator. In the source, `gen` and `gensym` are handed to both translators (lines 53-55). So translating a default (`ta.test?.Accept(xlat)`, lines 145 and 170) or the body (`Xlat(f.body)`, lines 68 and 72) could request imports or take symbol names. The following contracts hold only under this assumption:
  - Conversion.ImportsForKeywords: "adds nothing else";
  - Conversion.ConvertedAt: the placeholder index;
  - Generator.MethodGenerator.CreateFunctionParameters and Generator.MethodGenerator.Generate: the exact import set and symbol counter;
  - Generator.MethodGenerator.GenerateFrom: imports unchanged.
- Forwarding.Bind: `*args` and `**kwargs` are treated as ordinary required positionals, whereas Python binds an unmatched one to an empty collection. So BindSpec, ForwardingMatchesBinding and DanglingReference describe Python's binding only for lists of plain parameters. VarargOverloadDangles shows the `*args` case.
- The expression and statement translators (`Xlat`, lines 102-107, and `ta.test?.Accept(xlat)`):
  - a translated default is the opaque `Translated(e)`;
  - the method body is an opaque statement list handed to `GenerateFrom`;
  - docstring comments are not modelled.
- `LocalVariableGenerator.Generate` (line 75) is external hoisting logic and is not part of this model. `Generate` ends after the unpackers.
- The code-generation facade (`gen.Method`, `gen.StaticMethod`, `gen.Access`, `gen.Appl`, `gen.Return`, `gen.EnsureImport`) is foreign code and is reduced to its recorded effects:
  - the list of built methods and the set of imports;
  - `gen.Access(path, "Item" + i)` is the value `TupleItem(path, i)`.
- The type names are an enumeration (`object`, `Hashtable`, `Tuple`) rather than strings. `typeof(object)` and `"object"` are the same type here.
- SymbolGenerator.GenSymParameter: the naming scheme is not modelled. `names(prefix, k)` is an abstract supply. Placeholder uniqueness is proved only under the assumption that the supply never repeats (`PlaceholdersDistinct`).
- C# object identity is not modelled:
  - `Dictionary<Parameter, ...>` is keyed by parameter index, so two equal Python parameter objects are never confused;
  - aliasing of CodeDOM objects is not modelled;
  - arrays are sequences.
- The inner `foreach` of `GenerateTupleParameterUnpackers` is its own method, `GenerateComponentUnpackers`, so that each loop has its own invariant.
- A null `Id` is not modelled. The conversion does not read a tuple parameter's `Id` (lines 121-130). The overload reads `Id.Name` of every parameter it declares or references, tuple ones included (lines 162 and 169), and so does the unpacker for every component (line 94). Where `Id` is null this throws in the source. The model has no null: it uses `Parameter.name`, whatever it holds, at those places.
- A parameter that is both vararg and a tuple (impossible in Python) is accepted. Its declaration is not `params`, and its position still comes from its vararg flag, as in the code.
- GenerateDefaultArgMethod: an `iFirstDefault` above `args.Count` is accepted, as `Take` accepts it. No caller of the overload builder is modelled, because none exists in this file.
