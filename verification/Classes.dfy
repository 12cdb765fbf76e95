/** The classes an address of a region can be in, and their order.

    A class is a pair: whether the value from before the region is read (the
    "input" half), and how far its writes have gone along none < O < CO < TO.
    "Not classified yet" is the bottom of the order. */
module Classes {

  datatype Option<+T> = None | Some(value: T)

  datatype Class = Input | IO | CIO | TIO | Output | CO | TO

  /** The input half of a class; `None` has none. */
  predicate HasInput(c: Option<Class>) {
    c.Some? && c.value in {Input, IO, CIO, TIO}
  }

  /** How far along none < O < CO < TO a class is. */
  function Level(c: Option<Class>): nat {
    match c
    case None => 0
    case Some(Input) => 0
    case Some(Output) => 1
    case Some(IO) => 1
    case Some(CO) => 2
    case Some(CIO) => 2
    case Some(TO) => 3
    case Some(TIO) => 3
  }

  /** The class with the given two halves; the inverse of `HasInput` and `Level`. */
  function OfHalves(input: bool, level: nat): (c: Option<Class>)
    requires level <= 3
    ensures HasInput(c) == input && Level(c) == level
  {
    if input then
      Some(if level == 0 then Input else if level == 1 then IO else if level == 2 then CIO else TIO)
    else if level == 0 then
      None
    else
      Some(if level == 1 then Output else if level == 2 then CO else TO)
  }

  predicate Leq(c: Option<Class>, d: Option<Class>) {
    (HasInput(c) ==> HasInput(d)) && Level(c) <= Level(d)
  }

  function Join(c: Option<Class>, d: Option<Class>): (j: Option<Class>)
    ensures Leq(c, j) && Leq(d, j)
    ensures forall k :: Leq(c, k) && Leq(d, k) ==> Leq(j, k)
  {
    OfHalves(HasInput(c) || HasInput(d), if Level(c) < Level(d) then Level(d) else Level(c))
  }

  lemma HalvesDetermine(c: Option<Class>, d: Option<Class>)
    requires HasInput(c) == HasInput(d) && Level(c) == Level(d)
    ensures c == d
  {
  }

  lemma LeqAntisymmetric(c: Option<Class>, d: Option<Class>)
    requires Leq(c, d) && Leq(d, c)
    ensures c == d
  {
    HalvesDetermine(c, d);
  }
}
