/** Tunnel configuration and `TunnelConfig.getCommand`: the pure mapping from a
    configuration to the program and arguments that establish the tunnel. */
module Commands {
  import opened Basics
  import opened Decimal

  /** What a `kubectl port-forward` needs. */
  datatype K8sInfo = K8sInfo(context: string, namespace: string, service: string, port: int)

  /** `k8s` is a pointer in the program (nil when absent); `custom` counts as
      absent when it is the empty string. */
  datatype TunnelConfig = TunnelConfig(name: string, k8s: Option<K8sInfo>, custom: string, localPort: int)

  /** The program name and argument vector handed to the process runner. */
  datatype Command = Command(program: string, args: seq<string>)

  const Kubectl: string := "kubectl"
  const MissingCommand: string := "config is missing command information"

  predicate Lacks(s: string, c: char) {
    forall k :: 0 <= k < |s| ==> s[k] != c
  }

  /** Position of the first occurrence of `c` in `s`. */
  function IndexOf(s: string, c: char): (i: nat)
    requires !Lacks(s, c)
    ensures i < |s| && s[i] == c && Lacks(s[..i], c)
  {
    if s[0] == c then 0
    else
      var i := 1 + IndexOf(s[1..], c);
      assert s[..i] == [s[0]] + s[1..][..i - 1];
      i
  }

  lemma IndexOfJoin(a: string, c: char, b: string)
    requires Lacks(a, c)
    ensures !Lacks(a + [c] + b, c) && IndexOf(a + [c] + b, c) == |a|
  {
    var s := a + [c] + b;
    assert s[|a|] == c;
  }

  /** Words joined with one space between each pair: `strings.Join(parts, " ")`. */
  function Join(parts: seq<string>): string
    requires |parts| >= 1
  {
    if |parts| == 1 then parts[0] else parts[0] + " " + Join(parts[1..])
  }

  /** `strings.Split(s, " ")`: cut at every single space. Two adjacent spaces,
      or a space at either end, give an empty word; nothing is trimmed. */
  function Split(s: string): (parts: seq<string>)
    ensures |parts| >= 1
    ensures forall k :: 0 <= k < |parts| ==> Lacks(parts[k], ' ')
    ensures Join(parts) == s
    decreases |s|
  {
    if Lacks(s, ' ') then [s]
    else
      var i := IndexOf(s, ' ');
      var rest := Split(s[i + 1..]);
      var parts := [s[..i]] + rest;
      assert parts[1..] == rest;
      assert s == s[..i] + " " + s[i + 1..];
      parts
  }

  /** Split is the only way to cut `s` into space-free words that join back to
      `s`: the two are inverses. */
  lemma {:induction false} SplitUnique(s: string, parts: seq<string>)
    requires |parts| >= 1
    requires forall k :: 0 <= k < |parts| ==> Lacks(parts[k], ' ')
    requires Join(parts) == s
    ensures Split(s) == parts
    decreases |parts|
  {
    if |parts| == 1 {
    } else {
      var rest := parts[1..];
      assert s == parts[0] + [' '] + Join(rest);
      IndexOfJoin(parts[0], ' ', Join(rest));
      var i := |parts[0]|;
      assert s[..i] == parts[0];
      assert s[i + 1..] == Join(rest);
      SplitUnique(Join(rest), rest);
      assert parts == [parts[0]] + rest;
    }
  }

  /** The `"<local>:<remote>"` argument of `kubectl port-forward`. */
  function PortPair(local: int, remote: int): string {
    FromInt(local) + ":" + FromInt(remote)
  }

  /** The argument vector of `kubectl port-forward`; `--context` only when a
      context is given. */
  function K8sArgs(info: K8sInfo, localPort: int): seq<string> {
    ["port-forward", "-n", info.namespace]
    + (if info.context != "" then ["--context", info.context] else [])
    + [info.service, PortPair(localPort, info.port)]
  }

  /** `getCommand`: the k8s descriptor wins over the custom string; with
      neither there is nothing to run. */
  function GetCommand(c: TunnelConfig): (r: Result<Command>)
    ensures c.k8s.Some? ==> r == Ok(Command(Kubectl, K8sArgs(c.k8s.value, c.localPort)))
    ensures c.k8s.None? && c.custom != "" ==>
      r.Ok? && [r.value.program] + r.value.args == Split(c.custom)
      && Join([r.value.program] + r.value.args) == c.custom
      && Lacks(r.value.program, ' ')
      && forall k :: 0 <= k < |r.value.args| ==> Lacks(r.value.args[k], ' ')
    ensures r.Err? <==> c.k8s.None? && c.custom == ""
    ensures r.Err? ==> r.msg == MissingCommand
  {
    if c.k8s.Some? then
      Ok(Command(Kubectl, K8sArgs(c.k8s.value, c.localPort)))
    else if c.custom != "" then
      var parts := Split(c.custom);
      assert [parts[0]] + parts[1..] == parts;
      Ok(Command(parts[0], parts[1..]))
    else
      Err(MissingCommand)
  }

  /** Reads the two ports back out of a `PortPair`. */
  function ParsePortPair(s: string): Option<(int, int)> {
    if Lacks(s, ':') then None
    else
      var i := IndexOf(s, ':');
      match (ParseInt(s[..i]), ParseInt(s[i + 1..]))
      case (Some(local), Some(remote)) => Some((local, remote))
      case _ => None
  }

  /** Reads a descriptor and local port back out of a `kubectl port-forward`
      argument vector. */
  function ParseK8sArgs(args: seq<string>): Option<(K8sInfo, int)> {
    if |args| == 5 && args[0] == "port-forward" && args[1] == "-n" then
      match ParsePortPair(args[4])
      case Some((local, remote)) => Some((K8sInfo("", args[2], args[3], remote), local))
      case None => None
    else if |args| == 7 && args[0] == "port-forward" && args[1] == "-n"
      && args[3] == "--context" && args[4] != "" then
      match ParsePortPair(args[6])
      case Some((local, remote)) => Some((K8sInfo(args[4], args[2], args[5], remote), local))
      case None => None
    else None
  }

  lemma PortPairRoundTrip(local: int, remote: int)
    ensures ParsePortPair(PortPair(local, remote)) == Some((local, remote))
  {
    var a, b := FromInt(local), FromInt(remote);
    assert Lacks(a, ':');
    IndexOfJoin(a, ':', b);
    var s := PortPair(local, remote);
    assert s[..|a|] == a && s[|a| + 1..] == b;
    IntRoundTrip(local);
    IntRoundTrip(remote);
  }

  lemma K8sArgsRoundTripWithContext(info: K8sInfo, localPort: int)
    requires info.context != ""
    ensures ParseK8sArgs(K8sArgs(info, localPort)) == Some((info, localPort))
  {
    var pair := PortPair(localPort, info.port);
    PortPairRoundTrip(localPort, info.port);
    var args := K8sArgs(info, localPort);
    assert args == ["port-forward", "-n", info.namespace, "--context", info.context, info.service, pair];
    assert args[6] == pair;
    assert ParseK8sArgs(args) == Some((K8sInfo(args[4], args[2], args[5], info.port), localPort));
  }

  lemma K8sArgsRoundTripWithoutContext(info: K8sInfo, localPort: int)
    requires info.context == ""
    ensures ParseK8sArgs(K8sArgs(info, localPort)) == Some((info, localPort))
  {
    var pair := PortPair(localPort, info.port);
    PortPairRoundTrip(localPort, info.port);
    var args := K8sArgs(info, localPort);
    assert args == ["port-forward", "-n", info.namespace, info.service, pair];
    assert args[4] == pair;
  }

  /** The k8s argument vector loses nothing: descriptor and local port can be
      read back from it, context included exactly when it was non-empty. */
  lemma K8sArgsRoundTrip(info: K8sInfo, localPort: int)
    ensures ParseK8sArgs(K8sArgs(info, localPort)) == Some((info, localPort))
  {
    if info.context != "" {
      K8sArgsRoundTripWithContext(info, localPort);
    } else {
      K8sArgsRoundTripWithoutContext(info, localPort);
    }
  }
}
