/**
 * Command-line handling of port-forward.js: `get_address` turns a
 * `host:port` argument into a host and a port, and `main` starts the
 * forwarder only when it is given exactly two arguments that both parse.
 */
module PortForwardArgs {
  import opened Wrappers
  import opened Text

  datatype Address = Address(host: string, port: nat)

  /** The port text the model accepts: a non-empty run of decimal digits. */
  predicate IsPortText(t: string) {
    t != [] && IsDigits(t)
  }

  /**
   * `get_address(ip)`: split at the last colon; the host is what precedes
   * it, the port what follows. A colon at index 0, 1 or 2 (or none at all)
   * rejects the argument, and so does a port text that is not numeric.
   */
  function GetAddress(ip: string): (r: Option<Address>)
    ensures r.Some? ==> |r.value.host| >= 3 && StartsWith(ip, r.value.host + ":")
    ensures r.Some? ==> var t := ip[|r.value.host| + 1..];
      ':' !in t && IsPortText(t) && ValueOf(t) == r.value.port
  {
    var colon := LastIndexOf(ip, ':');
    if colon > 2 then
      var port := ip[colon + 1..];
      if IsPortText(port) then
        assert ip[..colon + 1] == ip[..colon] + ":";
        Some(Address(ip[..colon], ValueOf(port)))
      else None
    else None
  }

  /** Without a colon at index 3 or later there is no address. */
  lemma GetAddressNeedsLateColon(ip: string)
    requires |ip| < 3 || ':' !in ip[3..]
    ensures GetAddress(ip) == None
  {
    if |ip| >= 3 {
      forall i | 3 <= i < |ip| ensures ip[i] != ':' {
        assert ip[i] == ip[3..][i - 3];
      }
    }
  }

  /**
   * Every argument `h + ":" + t` with a colon-free `t` is read the same
   * way: an address exactly when `h` has at least three characters and
   * `t` is a non-empty digit string. `h` may itself contain colons.
   */
  lemma GetAddressSplit(h: string, t: string)
    requires ':' !in t
    ensures GetAddress(h + ":" + t) ==
      if |h| >= 3 && IsPortText(t) then Some(Address(h, ValueOf(t))) else None
  {
    var ip := h + ":" + t;
    var colon := LastIndexOf(ip, ':');
    assert ip[|h|] == ':';
    assert ip[|h| + 1..] == t;
    forall i | |h| < i < |ip| ensures ip[i] != ':' {
      assert ip[i] == t[i - |h| - 1];
    }
    assert colon == |h|;
    assert ip[..colon] == h;
  }

  /**
   * A host of three or more characters and the decimal form of a port read
   * back unchanged, for every port `parseInt` represents exactly (below 2^53).
   */
  lemma GetAddressRoundTrip(h: string, port: nat)
    requires |h| >= 3 && port < 0x20_0000_0000_0000
    ensures GetAddress(h + ":" + Decimal(port)) == Some(Address(h, port))
  {
    var t := Decimal(port);
    assert forall i :: 0 <= i < |t| ==> t[i] != ':' by {
      assert IsDigits(t);
    }
    GetAddressSplit(h, t);
    ValueOfDecimal(port);
  }

  /**
   * `main`: with exactly two arguments that both parse, the forwarder is
   * started from the first address to the second; in every other case
   * (`None`) only the usage line is printed.
   */
  function ParseCommandLine(args: seq<string>): (r: Option<(Address, Address)>)
    ensures r.Some? <==> |args| == 2 && GetAddress(args[0]).Some? && GetAddress(args[1]).Some?
    ensures r.Some? ==> r.value.0 == GetAddress(args[0]).value && r.value.1 == GetAddress(args[1]).value
  {
    if |args| == 2 then
      match (GetAddress(args[0]), GetAddress(args[1]))
      case (Some(source), Some(target)) => Some((source, target))
      case _ => None
    else None
  }
}
