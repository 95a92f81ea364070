# interface_decorator, modelled in Dafny

Flocker's `interface_decorator` (flocker/common/_interface.py) builds a class
decorator out of three things: an interface, a caller-supplied *method
decorator*, and extra arguments to forward to it. Building the decorator first
walks the interface's members. If any member is not a method, it raises an
error that names the decorator, and no decorator is built. If every member is
a method, the class decorator it returns works like this on a class: for each
interface name in turn, it sets the class attribute of that name to
`method_decorator(name, *args, **kwargs)`, and then it returns that same class.

The model has three files:

- `wrappers.dfy`: module `Wrappers`, with `Option` and `Result`.
  `Result` stands for a call that either returns (`Ok`) or raises (`Err`).
- `interface.dfy`: module `Interface`, which holds the model itself.
  - An interface is a sequence of `Member(name, kind)`, where `kind` is `Method` or `Attribute`.
  - The method decorator is a function `(string, X) -> Result<V, E>`.
    `X` stands for all of `*args, **kwargs`, and `V` for the callable it returns.
  - `InterfaceDecorator` is the build. It is a pure function, with the validation loop written as the recursive function `Validate`.
  - A class is a `ClassObject` whose field `attrs: map<string, V>` is its attribute table.
  - `ApplyClassDecorator` is the inner `class_decorator`: a method with a `while` loop that updates `cls.attrs` in place.
    It is proved against the function `Pass`, which describes one decorating pass.
  - `Pass` is tied to an independent description, `Rebindings` and `FirstError`: the pass overlays every name before the first call that raises, and it stops with that call's error.
    The frame, success, partial-failure and idempotence lemmas are proved from that description.
- `scenarios.dfy`: module `Scenarios`, which holds three examples on concrete interfaces.

## Model

| member | source | states |
|---|---|---|
| `Interface.Validate` | flocker/common/_interface.py:49-54 | The validation pass raises nothing exactly when every member is a method. When it raises, the error is the unsupported-interface error whose message starts with the decorator's name. |
| `Interface.InterfaceDecorator` | flocker/common/_interface.py:49-60 | The build succeeds exactly when every member is a method. On success it returns a decorator holding this interface, this method decorator and these extra arguments. On failure it returns no decorator, and the error message starts with `decorator_name`. It is a function, so a failing build changes no class. |
| `Interface.Pass` | flocker/common/_interface.py:57-58 | The functional model of the rebinding loop: it binds each name in turn and stops at the first call that raises. It never removes an attribute, and every attribute it leaves was there before or is an interface name. Its independent reference is `Rebindings` (every name before the first raising call, bound to the method decorator's result) with `FirstError`; `PassOverlaysRebindings` proves the two agree. |
| `Interface.FailureIndex` | flocker/common/_interface.py:57-58 | Gives the position of the first name whose method decorator call raises, or the number of names if none raises. Every call before that position returns. |
| `Interface.ApplyClassDecorator` | flocker/common/_interface.py:56-59 | Changes only `cls`. Its new attribute table is the one the pass `Pass` computes from the old table. If no call raises, it returns the very `cls` it was given. Otherwise it returns the first error, not caught and not wrapped. |
| `Interface.PassOverlaysRebindings` | flocker/common/_interface.py:57-58 | A pass's result is the old table overlaid with the bindings for every name before the first raising call. Its error is that call's error, if there is one. |
| `Interface.PassFailsIffSomeCallFails` | flocker/common/_interface.py:57-58 | A pass raises if and only if some call of the method decorator on an interface name raises. |
| `Interface.PassLeavesOtherAttributes` | flocker/common/_interface.py:57-58 | An attribute whose name is not in the interface is neither added, removed nor changed. This holds whether or not the pass raises. |
| `Interface.PassRebindsEveryName` | flocker/common/_interface.py:57-58 | When no call raises, each interface name `n` is bound to `method_decorator(n, extra)`, and any earlier value of `n` is overwritten. The table's keys are exactly the old keys plus the interface's names. |
| `Interface.PassStopsAtFirstFailure` | flocker/common/_interface.py:57-58 | When the k-th call is the first one that raises, the pass ends with that error and the names before k are rebound. If the names are unique, every name from k on keeps its previous value, or stays absent. |
| `Interface.PassIdempotent` | flocker/common/_interface.py:57-58 | Applying the decorator again to the table it produced gives the same table and the same outcome. This includes the case where the first application raised. |
| `Interface.BuiltDecoratorRebindsInterface` | flocker/common/_interface.py:42-59 | Apply the decorator returned by a successful build, with a method decorator whose calls all return. Then every interface name `n` is bound to the method decorator's result for `n` and for the build's own extra arguments, forwarded unchanged. No other name is added. |
| `Scenarios.StartStopScenario` | flocker/common/_interface.py:56-59 | With the methods `start` and `stop` and a method decorator that echoes the name, `start` is bound to `"start"` and `stop` to `"stop"`. |
| `Scenarios.NonMethodScenario` | flocker/common/_interface.py:49-54 | An interface with the attribute `timeout` is refused by the decorator `"trace"`, with a message that starts with `trace`. |
| `Scenarios.FailureOnSecondScenario` | flocker/common/_interface.py:57-58 | Take three names, with a method decorator that raises on the second. The first name is rebound, the error is the one raised, and the third name keeps its old value. |

## Left out

- The internals of zope.interface: `interface.names()` (including its `all=False` meaning, which excludes inherited names), inheritance between interfaces, item lookup and the `Method` class. The interface is an immutable sequence of named, classified members. Its names are unique, as the names of an interface are; the lemmas that need this say so with `Distinct`.
- The order in which `names()` enumerates members. The model fixes one order, the order of the sequence. The frame and success properties do not depend on it. The partial-failure property is stated for the order that was used. Idempotence in the case where a call raises assumes that both applications list the names in the same order, as `names()` does on an unchanged interface: if the order differed, the second pass could rebind names that the first pass never reached.
- Re-enumeration of the interface when the decorator is applied. The source calls `interface.names()` again at that point. The model's decorator holds the interface value, and since that value is immutable, the names it finds are the same.
- Python's attribute lookup and method binding. `attrs` is the class's own attribute table, the one `setattr` writes. Inherited attributes and the way an assigned callable becomes a bound method are not modelled.
- What the generated callables do, for example the logging wrapper in the docstring. That is the caller's code; the bound value is an opaque `V`.
- Agreement between the generated callables and the interface's method signatures. The source checks nothing here.
- The exception type. The build error is the value `UnsupportedInterface(message)`, and its message is the source's format string filled in with `decorator_name`. A failing method decorator call is an `Err` value of the caller's error type.
- Non-deterministic method decorators. The method decorator is a Dafny function and so returns the same result for the same arguments. Idempotence is proved for that case only, which is also the only case in which it holds.
- Keyword arguments that clash with the build's own parameters. Because of the signature at flocker/common/_interface.py:10-11, a keyword argument named `decorator_name`, `interface` or `method_decorator` cannot be forwarded: Python raises `TypeError` at the build call. The model's `extra` is a single value of any type, so `InterfaceDecorator` never fails for this reason.
- Failure of `setattr` itself. On flocker/common/_interface.py:58 the assignment can raise, for example on a built-in type or under a metaclass that overrides `__setattr__`. In the model the table update `cls.attrs[name := value]` always succeeds; only the method decorator's call can raise.
- Side effects of the method decorator. It is a Dafny function: it cannot write to the class, to the interface or to the forwarded arguments. `PassLeavesOtherAttributes`, `PassIdempotent` and the other pass lemmas therefore speak about the decorator's own writes only, not about anything a Python method decorator might change while it runs.
- Decorators built without validation. `ClassDecorator` is a plain datatype, so a value holding an interface with a non-method member can be written directly and applied. The source can never produce one, because its class decorator exists only after validation has passed. The types of the model do not rule this out; `InterfaceDecorator`'s contract gives the guarantee for the decorators it returns.
- Concurrency. The source has none, and it does not synchronise two decorators applied to the same class at once.
