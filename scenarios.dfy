/** Three examples on concrete interfaces. The bound value stands for the
    callable the method decorator returns; here it is the string that callable
    would return. */
module Scenarios {
  import opened Wrappers
  import opened Interface

  /** A method decorator that returns, for each name, a callable answering
      with that name. */
  function EchoName(name: string, extra: ()): Result<string, string> {
    Ok(name)
  }

  /** A method decorator that raises on `"stop"`. */
  function FailOnStop(name: string, extra: ()): Result<string, string> {
    if name == "stop" then Err("stop failed") else Ok(name)
  }

  const StartStop: InterfaceSpec := [Member("start", Method), Member("stop", Method)]

  /** Decorating with `start` and `stop` binds each to a callable giving its
      own name. */
  lemma StartStopScenario(attrs: map<string, string>)
    ensures InterfaceDecorator("trace", StartStop, EchoName, ()).Ok?
    ensures var d := InterfaceDecorator("trace", StartStop, EchoName, ()).value;
            var o := Pass(Names(d.iface), d.methodDecorator, d.extra, attrs);
            o.failure == None && o.attrs == attrs["start" := "start"]["stop" := "stop"]
  {
    var names := Names(StartStop);
    assert names == ["start", "stop"];
    assert names[1..] == ["stop"] && names[1..][1..] == [];
    var a1 := attrs["start" := "start"];
    assert Pass(names[1..][1..], EchoName, (), a1["stop" := "stop"]) == Outcome(a1["stop" := "stop"], None);
    assert Pass(names[1..], EchoName, (), a1) == Outcome(a1["stop" := "stop"], None);
    assert Pass(names, EchoName, (), attrs) == Outcome(a1["stop" := "stop"], None);
  }

  /** An interface with the attribute `timeout` is refused, with a message
      that starts with the decorator's name. */
  lemma NonMethodScenario()
    ensures var r := InterfaceDecorator("trace", [Member("start", Method), Member("timeout", Attribute)], EchoName, ());
            r.Err? && r.error.message[..5] == "trace"
  {
  }

  /** A method decorator that raises on the second of three names: the first
      is rebound, the error is the decorator's own, the third keeps its value. */
  lemma FailureOnSecondScenario()
    ensures var names := ["start", "stop", "pause"];
            var o := Pass(names, FailOnStop, (), map["pause" := "old"]);
            o.failure == Some("stop failed") && o.attrs == map["start" := "start", "pause" := "old"]
  {
  }
}
