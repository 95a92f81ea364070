/** Model of `interface_decorator` (flocker/common/_interface.py).

    `InterfaceDecorator` checks that every member of an interface is a method
    and, if so, hands back a class decorator. Applying that decorator to a class
    rebinds, one interface name at a time, the class attribute of that name to
    whatever the caller's method decorator produces for the name and the
    forwarded extra arguments. */
module Interface {
  import opened Wrappers

  /** How the interface classifies one of its members. */
  datatype Kind = Method | Attribute

  datatype Member = Member(name: string, kind: Kind)

  /** The members of an interface, in the order its names are enumerated. */
  type InterfaceSpec = seq<Member>

  /** The error raised when the interface has a member that is not a method. */
  datatype BuildError = UnsupportedInterface(message: string)

  /** The caller's method decorator, with its extra positional and keyword
      arguments collapsed into one value of type `X`. A call either returns
      the value to bind (`Ok`) or raises (`Err`). */
  type MethodDecorator<!X, V, E> = (string, X) -> Result<V, E>

  /** The class decorator handed back by a successful build: it remembers the
      interface, the method decorator and the arguments to forward. */
  datatype ClassDecorator<!X, V, E> =
    ClassDecorator(iface: InterfaceSpec, methodDecorator: MethodDecorator<X, V, E>, extra: X)

  /** A class object; `attrs` is its attribute table, which `setattr` updates. */
  class ClassObject<V> {
    var attrs: map<string, V>

    constructor (attrs: map<string, V>)
      ensures this.attrs == attrs
    {
      this.attrs := attrs;
    }
  }

  /** The state a decorating pass leaves behind: the attribute table, and the
      error that stopped it, if one did. */
  datatype Outcome<V, E> = Outcome(attrs: map<string, V>, failure: Option<E>)

  // ---------------------------------------------------------------------------
  // Interfaces

  function Names(iface: InterfaceSpec): (ns: seq<string>)
    ensures |ns| == |iface|
    ensures forall i :: 0 <= i < |iface| ==> ns[i] == iface[i].name
  {
    seq(|iface|, i requires 0 <= i < |iface| => iface[i].name)
  }

  predicate AllMethods(iface: InterfaceSpec) {
    forall i :: 0 <= i < |iface| ==> iface[i].kind == Method
  }

  /** The names of an interface are unique. */
  predicate Distinct(names: seq<string>) {
    forall i, j :: 0 <= i < j < |names| ==> names[i] != names[j]
  }

  // ---------------------------------------------------------------------------
  // Building the decorator

  function UnsupportedMessage(decoratorName: string): string {
    decoratorName + " does not support interfaces with non-methods attributes"
  }

  /** The validation loop: walk the members in order and raise at the first
      one that is not a method. */
  function Validate(decoratorName: string, iface: InterfaceSpec): (r: Option<BuildError>)
    ensures r.None? <==> AllMethods(iface)
    ensures r.Some? ==> r.value == UnsupportedInterface(UnsupportedMessage(decoratorName))
  {
    if iface == [] then None
    else if iface[0].kind != Method then Some(UnsupportedInterface(UnsupportedMessage(decoratorName)))
    else
      var rest := Validate(decoratorName, iface[1..]);
      assert forall i :: 1 <= i < |iface| ==> iface[i] == iface[1..][i - 1];
      rest
  }

  /** `interface_decorator(decorator_name, interface, method_decorator, *args, **kwargs)`.
      It is a function: it reads and changes no object, so a build that fails
      has touched no class. */
  function InterfaceDecorator<X, V, E>(decoratorName: string, iface: InterfaceSpec,
                                       methodDecorator: MethodDecorator<X, V, E>, extra: X)
    : (r: Result<ClassDecorator<X, V, E>, BuildError>)
    ensures r.Ok? <==> AllMethods(iface)
    ensures r.Ok? ==> r.value == ClassDecorator(iface, methodDecorator, extra)
    ensures r.Err? ==> (|decoratorName| <= |r.error.message|
                        && r.error.message[..|decoratorName|] == decoratorName)
  {
    match Validate(decoratorName, iface)
    case Some(e) => Err(e)
    case None => Ok(ClassDecorator(iface, methodDecorator, extra))
  }

  // ---------------------------------------------------------------------------
  // Applying the decorator

  /** One decorating pass over `names`, starting from the table `attrs`: each
      name in turn is bound to the method decorator's result, and the pass
      stops at the first call that raises. */
  function Pass<X, V, E>(names: seq<string>, f: MethodDecorator<X, V, E>, extra: X,
                         attrs: map<string, V>): (o: Outcome<V, E>)
    ensures forall x :: x in attrs ==> x in o.attrs
    ensures forall x :: x in o.attrs ==> x in attrs || x in names
  {
    if names == [] then Outcome(attrs, None)
    else match f(names[0], extra)
      case Err(e) => Outcome(attrs, Some(e))
      case Ok(v) => Pass(names[1..], f, extra, attrs[names[0] := v])
  }

  /** The position of the first name whose method decorator call raises, or
      `|names|` when none does. */
  function FailureIndex<X, V, E>(names: seq<string>, f: MethodDecorator<X, V, E>, extra: X): (k: nat)
    ensures k <= |names|
    ensures forall i :: 0 <= i < k ==> f(names[i], extra).Ok?
    ensures k < |names| ==> f(names[k], extra).Err?
  {
    if names == [] then 0
    else if f(names[0], extra).Err? then 0
    else
      var k := FailureIndex(names[1..], f, extra);
      assert forall i :: 1 <= i < |names| ==> names[i] == names[1..][i - 1];
      1 + k
  }

  /** The error the pass stops with, if any. */
  function FirstError<X, V, E>(names: seq<string>, f: MethodDecorator<X, V, E>, extra: X): Option<E> {
    var k := FailureIndex(names, f, extra);
    if k < |names| then Some(f(names[k], extra).error) else None
  }

  /** The bindings the pass makes: every name before the failing one, bound to
      what the method decorator returns for it. */
  function Rebindings<X, V, E>(names: seq<string>, f: MethodDecorator<X, V, E>, extra: X): map<string, V> {
    var k := FailureIndex(names, f, extra);
    map n | n in names[..k] :: f(n, extra).value
  }

  /** `class_decorator(cls)`: rebinds the interface's names on `cls` in order
      and returns `cls`, or stops with the method decorator's error, leaving
      the names bound so far rebound. */
  method ApplyClassDecorator<X, V, E>(d: ClassDecorator<X, V, E>, cls: ClassObject<V>)
    returns (res: Result<ClassObject<V>, E>)
    modifies cls
    ensures var o := Pass(Names(d.iface), d.methodDecorator, d.extra, old(cls.attrs));
            && cls.attrs == o.attrs
            && (o.failure.None? ==> res == Ok(cls))
            && (o.failure.Some? ==> res == Err(o.failure.value))
  {
    var names := Names(d.iface);
    var i := 0;
    while i < |names|
      invariant 0 <= i <= |names|
      invariant Pass(names, d.methodDecorator, d.extra, old(cls.attrs))
             == Pass(names[i..], d.methodDecorator, d.extra, cls.attrs)
    {
      assert names[i..][1..] == names[i + 1..];
      var r := d.methodDecorator(names[i], d.extra);
      if r.Err? {
        return Err(r.error);
      }
      cls.attrs := cls.attrs[names[i] := r.value];
      i := i + 1;
    }
    return Ok(cls);
  }

  // ---------------------------------------------------------------------------
  // Properties of a decorating pass

  /** A pass overlays exactly its rebindings on the table it starts from and
      stops with the first error. */
  lemma {:induction false} PassOverlaysRebindings<X, V, E>(names: seq<string>, f: MethodDecorator<X, V, E>,
                                                           extra: X, attrs: map<string, V>)
    ensures Pass(names, f, extra, attrs)
         == Outcome(attrs + Rebindings(names, f, extra), FirstError(names, f, extra))
  {
    if names == [] {
      assert Rebindings(names, f, extra) == map[];
    } else if f(names[0], extra).Err? {
      assert FailureIndex(names, f, extra) == 0;
      assert Rebindings(names, f, extra) == map[];
    } else {
      var v := f(names[0], extra).value;
      var tail := names[1..];
      PassOverlaysRebindings(tail, f, extra, attrs[names[0] := v]);
      RebindingsCons(names, f, extra);
      var r' := Rebindings(tail, f, extra);
      assert attrs + r'[names[0] := v] == attrs[names[0] := v] + r';
    }
  }

  /** Past a first call that returns, the rebindings are the tail's plus the
      first name. */
  lemma RebindingsCons<X, V, E>(names: seq<string>, f: MethodDecorator<X, V, E>, extra: X)
    requires names != [] && f(names[0], extra).Ok?
    ensures FailureIndex(names, f, extra) == 1 + FailureIndex(names[1..], f, extra)
    ensures FirstError(names, f, extra) == FirstError(names[1..], f, extra)
    ensures Rebindings(names, f, extra)
         == Rebindings(names[1..], f, extra)[names[0] := f(names[0], extra).value]
  {
  }

  /** A pass raises exactly when some call of the method decorator raises. */
  lemma {:induction false} PassFailsIffSomeCallFails<X, V, E>(
    names: seq<string>, f: MethodDecorator<X, V, E>, extra: X, attrs: map<string, V>)
    ensures Pass(names, f, extra, attrs).failure.None?
        <==> forall i :: 0 <= i < |names| ==> f(names[i], extra).Ok?
  {
    PassOverlaysRebindings(names, f, extra, attrs);
  }

  /** No attribute outside the interface's names is added, removed or changed,
      whether or not the pass raises. */
  lemma {:induction false} PassLeavesOtherAttributes<X, V, E>(
    names: seq<string>, f: MethodDecorator<X, V, E>, extra: X, attrs: map<string, V>, x: string)
    requires x !in names
    ensures var a := Pass(names, f, extra, attrs).attrs;
            && (x in a <==> x in attrs)
            && (x in attrs ==> a[x] == attrs[x])
  {
    PassOverlaysRebindings(names, f, extra, attrs);
  }

  /** When no call raises, every name is bound to the method decorator's
      result for that name and the forwarded arguments, and the table's keys
      are the old keys plus the interface's names. */
  lemma PassRebindsEveryName<X, V, E>(names: seq<string>, f: MethodDecorator<X, V, E>,
                                      extra: X, attrs: map<string, V>)
    requires forall i :: 0 <= i < |names| ==> f(names[i], extra).Ok?
    ensures var o := Pass(names, f, extra, attrs);
            && o.failure == None
            && (forall i :: 0 <= i < |names| ==> names[i] in o.attrs && o.attrs[names[i]] == f(names[i], extra).value)
            && (forall x :: x in o.attrs <==> x in attrs || x in names)
  {
    PassOverlaysRebindings(names, f, extra, attrs);
    assert names[..|names|] == names;
  }

  /** When the `k`-th call is the first to raise, the pass stops with its
      error; the names before `k` are rebound, and, the names being unique, the
      names from `k` on keep the values they had. */
  lemma PassStopsAtFirstFailure<X, V, E>(names: seq<string>, f: MethodDecorator<X, V, E>,
                                         extra: X, attrs: map<string, V>, k: nat)
    requires k < |names|
    requires forall i :: 0 <= i < k ==> f(names[i], extra).Ok?
    requires f(names[k], extra).Err?
    ensures var o := Pass(names, f, extra, attrs);
            && o.failure == Some(f(names[k], extra).error)
            && (forall i :: 0 <= i < k ==> names[i] in o.attrs && o.attrs[names[i]] == f(names[i], extra).value)
            && (Distinct(names) ==>
                  forall j :: k <= j < |names| ==>
                    (names[j] in o.attrs <==> names[j] in attrs)
                    && (names[j] in attrs ==> o.attrs[names[j]] == attrs[names[j]]))
  {
    PassOverlaysRebindings(names, f, extra, attrs);
    assert FailureIndex(names, f, extra) == k;
    assert forall i :: 0 <= i < k ==> names[i] == names[..k][i];
  }

  /** Applying the decorator a second time changes nothing: the second pass
      rebinds the same names to the same values and stops where the first did. */
  lemma PassIdempotent<X, V, E>(names: seq<string>, f: MethodDecorator<X, V, E>,
                                extra: X, attrs: map<string, V>)
    ensures var once := Pass(names, f, extra, attrs);
            Pass(names, f, extra, once.attrs) == once
  {
    var once := Pass(names, f, extra, attrs);
    PassOverlaysRebindings(names, f, extra, attrs);
    PassOverlaysRebindings(names, f, extra, once.attrs);
    var r := Rebindings(names, f, extra);
    assert (attrs + r) + r == attrs + r;
  }

  /** A successful build, applied to a class whose method decorator calls all
      return, binds every interface name `n` to the method decorator's result
      for `n` and the build's own extra arguments, and adds no other name. */
  lemma BuiltDecoratorRebindsInterface<X, V, E>(decoratorName: string, iface: InterfaceSpec,
                                                f: MethodDecorator<X, V, E>, extra: X,
                                                attrs: map<string, V>)
    requires AllMethods(iface)
    requires forall i :: 0 <= i < |iface| ==> f(iface[i].name, extra).Ok?
    ensures InterfaceDecorator(decoratorName, iface, f, extra).Ok?
    ensures var d := InterfaceDecorator(decoratorName, iface, f, extra).value;
            var o := Pass(Names(d.iface), d.methodDecorator, d.extra, attrs);
            && o.failure == None
            && (forall i :: 0 <= i < |iface| ==>
                  iface[i].name in o.attrs && o.attrs[iface[i].name] == f(iface[i].name, extra).value)
            && (forall x :: x in o.attrs <==> x in attrs || x in Names(iface))
  {
    PassRebindsEveryName(Names(iface), f, extra, attrs);
  }
}
