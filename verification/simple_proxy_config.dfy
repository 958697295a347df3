/**
 * The acceptance test `main` in simple-proxy.js applies to its parsed
 * configuration: the five settings are read by property access and the
 * configuration is used only when every one of them is truthy in the
 * JavaScript sense. Reading the file and `JSON.parse` are not modelled;
 * the parsed value is the input.
 */
module SimpleProxyConfig {
  import opened Wrappers

  /** A JavaScript value as `JSON.parse` can produce it, plus `undefined`. */
  datatype JsValue =
    | Undefined
    | Null
    | Bool(b: bool)
    | Number(x: real)
    | Str(s: string)
    | Array(items: seq<JsValue>)
    | Object(fields: map<string, JsValue>)

  /**
   * JavaScript truthiness: the falsy values are exactly `undefined`, `null`,
   * `false`, `0` and `""` (JSON has no NaN, and `-0` parses to the same real).
   */
  predicate Truthy(v: JsValue)
    ensures !Truthy(v) <==> v in {Undefined, Null, Bool(false), Number(0.0), Str("")}
  {
    match v
    case Undefined | Null => false
    case Bool(b) => b
    case Number(x) => x != 0.0
    case Str(s) => s != []
    case Array(_) | Object(_) => true
  }

  /**
   * `v[key]` for the configuration's property names, none of which is a
   * property of strings, numbers, booleans or arrays; `None` is the
   * TypeError thrown when `v` is `undefined` or `null`.
   */
  function Get(v: JsValue, key: string): (r: Option<JsValue>)
    ensures r.None? <==> v == Undefined || v == Null
    ensures v.Object? && key in v.fields ==> r == Some(v.fields[key])
    ensures v != Undefined && v != Null && !(v.Object? && key in v.fields) ==> r == Some(Undefined)
  {
    match v
    case Undefined | Null => None
    case Object(fields) => Some(if key in fields then fields[key] else Undefined)
    case _ => Some(Undefined)
  }

  datatype Config = Config(command: JsValue, tag: JsValue, index: JsValue,
                           sourcePort: JsValue, targetPort: JsValue)

  datatype ConfigCheck =
    | Accepted(config: Config)
      /** 'Invalid proxy-config.json' is logged and nothing is started. */
    | Invalid
      /** `json['discovery']` is `undefined` or `null`: reading a field of it throws. */
    | TypeError

  predicate AllTruthy(c: Config) {
    Truthy(c.command) && Truthy(c.tag) && Truthy(c.index) && Truthy(c.sourcePort) && Truthy(c.targetPort)
  }

  /**
   * Lines 135-140 and 157-158: read `discovery.command`, `discovery.tag`,
   * `discovery.index`, `source_port` and `target_port`, and accept the
   * configuration only when all five are truthy.
   */
  function CheckConfig(json: JsValue): (r: ConfigCheck)
    ensures r == TypeError <==> json == Undefined || json == Null || Get(json, "discovery").value in {Undefined, Null}
    ensures r.Accepted? <==> ReadConfig(json).Some? && AllTruthy(ReadConfig(json).value)
    ensures r.Accepted? ==> ReadConfig(json) == Some(r.config) && AllTruthy(r.config)
    ensures r == Invalid <==> ReadConfig(json).Some? && !AllTruthy(ReadConfig(json).value)
  {
    match ReadConfig(json)
    case None => TypeError
    case Some(c) => if AllTruthy(c) then Accepted(c) else Invalid
  }

  /** The five property reads of lines 135-139; `None` when one of them throws. */
  function ReadConfig(json: JsValue): (r: Option<Config>)
    ensures r.None? <==> json == Undefined || json == Null || Get(json, "discovery").value in {Undefined, Null}
    ensures r.Some? ==> var discovery := Get(json, "discovery").value;
      && r.value.command == Get(discovery, "command").value
      && r.value.tag == Get(discovery, "tag").value
      && r.value.index == Get(discovery, "index").value
      && r.value.sourcePort == Get(json, "source_port").value
      && r.value.targetPort == Get(json, "target_port").value
  {
    match Get(json, "discovery")
    case None => None
    case Some(discovery) =>
      match (Get(discovery, "command"), Get(discovery, "tag"), Get(discovery, "index"))
      case (Some(command), Some(tag), Some(index)) =>
        Some(Config(command, tag, index, Get(json, "source_port").value, Get(json, "target_port").value))
      case _ => None
  }

  /** A zero index or port, an empty command or tag, or a missing field rejects the configuration. */
  lemma FalsyFieldRejects(json: JsValue, c: Config)
    requires ReadConfig(json) == Some(c)
    requires c.index == Number(0.0) || c.sourcePort == Number(0.0) || c.targetPort == Number(0.0)
          || c.command == Str("") || c.tag == Str("") || c.index == Undefined
    ensures CheckConfig(json) == Invalid
  {
  }

  /**
   * A configuration file that holds the five settings, all truthy, is
   * accepted with exactly those settings, whatever else it holds.
   */
  lemma CompleteConfigAccepted(discovery: map<string, JsValue>, top: map<string, JsValue>,
                               command: JsValue, tag: JsValue, index: JsValue,
                               sourcePort: JsValue, targetPort: JsValue)
    requires Truthy(command) && Truthy(tag) && Truthy(index) && Truthy(sourcePort) && Truthy(targetPort)
    ensures var d := discovery["command" := command]["tag" := tag]["index" := index];
      var json := Object(top["discovery" := Object(d)]["source_port" := sourcePort]["target_port" := targetPort]);
      CheckConfig(json) == Accepted(Config(command, tag, index, sourcePort, targetPort))
  {
  }
}
