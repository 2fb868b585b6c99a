/**
  The Python side of the translation: the parameter list of a `def`, as the
  parser hands it to the method generator.
 */
module PySyntax {
  import opened Wrappers

  /** A Python expression. Only defaults are expressions here, and their
      translation belongs to the expression translator, so the model keeps
      the expression opaque. */
  datatype Exp = Exp(text: string)

  /**
    One formal parameter of a Python function.
    - `name`: the identifier (`Id.Name`);
    - `test`: the default value, if any;
    - `tuple`: the components of a tuple-destructuring parameter
      (`def f((a, b), c)`), absent for every other parameter;
    - `vararg`: the parameter collects extra positional arguments (`*args`);
    - `keyarg`: the parameter collects extra keyword arguments (`**kwargs`).
   */
  datatype Parameter = Parameter(
    name: string,
    test: Option<Exp>,
    tuple: TupleSpec,
    vararg: bool,
    keyarg: bool)

  /** The `tuple` field: `null` for a parameter that does not destructure a
      tuple, else the list of its components. */
  datatype TupleSpec = NoTuple | TupleOf(components: seq<Parameter>)

  /** The name of a discarded tuple component. */
  const Discard := "_"
}
