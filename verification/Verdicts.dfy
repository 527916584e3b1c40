/**
 Status and root cause of one diagnosed proxy, and the rewriting of target errors that comes before. The rewriting
 is meant for the reader of a report; it must not change the diagnosis.
 */
module Verdicts {
  import opened Text

  /** Errors of the direct probes of the node; "" where the layer answered or was not probed. */
  datatype Health = Health(dnsErr: string, tcpErr: string, udpErr: string, tlsErr: string)

  datatype Target = Target(success: bool, error: string)

  datatype Status = Online | Degraded | Offline

  datatype Verdict =
    | AllWell | Partial(ok: nat, total: nat)
    | DnsFailed(error: string)
    | UdpRefused | UdpFailed(error: string)
    | TcpTimeout | TcpRefused | TcpFailed(error: string)
    | TlsFailed(error: string)
    | Restricted | SessionReset | TunnelTimeout | TunnelFailed

  function IsUDPProto(proto: string): bool {
    var p := Lower(Trim(proto));
    p == "hysteria" || p == "hysteria2" || p == "tuic" || p == "wireguard"
  }

  // ---------------------------------------------------------------- failing targets

  datatype Class = Forbidden | Reset | TimedOut | Unclassed

  function ClassOf(error: string): Class {
    var low := Lower(error);
    if Occurs(low, "403") then Forbidden
    else if Occurs(low, "eof") || Occurs(low, "reset") then Reset
    else if Occurs(low, "timeout") then TimedOut
    else Unclassed
  }

  function Successes(ts: seq<Target>): (n: nat)
    ensures n <= |ts|
  {
    if ts == [] then 0 else Successes(ts[..|ts| - 1]) + if ts[|ts| - 1].success then 1 else 0
  }

  predicate SomeFail(ts: seq<Target>, c: Class) {
    exists i | 0 <= i < |ts| :: !ts[i].success && ClassOf(ts[i].error) == c
  }

  /** What the low-level probes say when no target could be reached. */
  function RootCause(udp: bool, h: Health, ts: seq<Target>): Verdict {
    if h.dnsErr != "" then DnsFailed(h.dnsErr)
    else if udp && h.udpErr != "" then
      if Occurs(Lower(h.udpErr), "refused")
          || Occurs(Lower(h.udpErr), "unreachable") then UdpRefused else UdpFailed(h.udpErr)
    else if !udp && h.tcpErr != "" then
      if Occurs(h.tcpErr, "Timeout") then TcpTimeout
      else if Occurs(Lower(h.tcpErr), "refused") then TcpRefused
      else TcpFailed(h.tcpErr)
    else if !udp && h.tlsErr != "" then TlsFailed(h.tlsErr)
    else if SomeFail(ts, Forbidden) then Restricted
    else if SomeFail(ts, Reset) then SessionReset
    else if SomeFail(ts, TimedOut) then TunnelTimeout
    else TunnelFailed
  }

  function Diagnosis(udp: bool, h: Health, ts: seq<Target>): (Status, Verdict) {
    if |ts| > 0 && Successes(ts) == |ts| then (Online, AllWell)
    else if Successes(ts) > 0 then (Degraded, Partial(Successes(ts), |ts|))
    else (Offline, RootCause(udp, h, ts))
  }

  /** The counting loop; which of the counts are positive is all that is used of three of them. */
  method CountTargets(ts: seq<Target>) returns (ok: nat, forbidden: nat, resets: nat, timeouts: nat)
    ensures ok == Successes(ts)
    ensures forbidden > 0 <==> SomeFail(ts, Forbidden)
    ensures resets > 0 <==> SomeFail(ts, Reset)
    ensures timeouts > 0 <==> SomeFail(ts, TimedOut)
  {
    hide ClassOf, SomeFail, Successes;
    ok, forbidden, resets, timeouts := 0, 0, 0, 0;
    NoTarget();
    for i := 0 to |ts|
      invariant ok == Successes(ts[..i])
      invariant forbidden > 0 <==> SomeFail(ts[..i], Forbidden)
      invariant resets > 0 <==> SomeFail(ts[..i], Reset)
      invariant timeouts > 0 <==> SomeFail(ts[..i], TimedOut)
    {
      assert ts[..i + 1] == ts[..i] + [ts[i]];
      OneMoreTarget(ts[..i], ts[i], Reset);
      OneMoreTarget(ts[..i], ts[i], Forbidden);
      OneMoreTarget(ts[..i], ts[i], TimedOut);
      if ts[i].success {
        ok := ok + 1;
      } else {
        match ClassOf(ts[i].error) {
          case Forbidden => forbidden := forbidden + 1;
          case Reset => resets := resets + 1;
          case TimedOut => timeouts := timeouts + 1;
          case Unclassed =>
        }
      }
    }
    assert ts[..|ts|] == ts;
  }

  lemma NoTarget()
    ensures Successes([]) == 0 && forall c :: !SomeFail([], c)
  {
  }

  method DetermineVerdict(proto: string, h: Health, ts: seq<Target>) returns (status: Status, verdict: Verdict)
    ensures (status, verdict) == Diagnosis(IsUDPProto(proto), h, ts)
  {
    hide IsUDPProto, SomeFail, Occurs, Lower, Successes;
    var ok, forbidden, resets, timeouts := CountTargets(ts);
    if |ts| > 0 && ok == |ts| { return Online, AllWell; }
    if ok > 0 { return Degraded, Partial(ok, |ts|); }
    var udp := IsUDPProto(proto);
    if h.dnsErr != "" { return Offline, DnsFailed(h.dnsErr); }
    if udp && h.udpErr != "" {
      if Occurs(Lower(h.udpErr), "refused") || Occurs(Lower(h.udpErr), "unreachable") { return Offline, UdpRefused; }
      return Offline, UdpFailed(h.udpErr);
    }
    if !udp && h.tcpErr != "" {
      if Occurs(h.tcpErr, "Timeout") { return Offline, TcpTimeout; }
      if Occurs(Lower(h.tcpErr), "refused") { return Offline, TcpRefused; }
      return Offline, TcpFailed(h.tcpErr);
    }
    if !udp && h.tlsErr != "" { return Offline, TlsFailed(h.tlsErr); }
    if forbidden > 0 { return Offline, Restricted; }
    if resets > 0 { return Offline, SessionReset; }
    if timeouts > 0 { return Offline, TunnelTimeout; }
    return Offline, TunnelFailed;
  }

  lemma OneMoreTarget(ts: seq<Target>, t: Target, c: Class)
    ensures SomeFail(ts + [t], c) <==> SomeFail(ts, c) || (!t.success && ClassOf(t.error) == c)
    ensures Successes(ts + [t]) == Successes(ts) + if t.success then 1 else 0
  {
    hide ClassOf;
    var more := ts + [t];
    assert more[..|ts|] == ts && more[|ts|] == t;
    if SomeFail(ts, c) {
      var i :| 0 <= i < |ts| && !ts[i].success && ClassOf(ts[i].error) == c;
      assert !more[i].success && ClassOf(more[i].error) == c;
    }
  }

  // ---------------------------------------------------------------- aligning errors with the node's health

  /** The layer to blame, and its error; "" when no layer failed. */
  function Layer(udp: bool, h: Health): (string, string) {
    if h.dnsErr != "" then ("DNS", h.dnsErr)
    else if h.tcpErr != "" then ("TCP", h.tcpErr)
    else if udp && h.udpErr != "" then ("UDP", h.udpErr)
    else ("", "")
  }

  function Blame(layer: string, error: string): string {
    "no tunnel (" + layer + " failure of the node: " + error + ")"
  }

  function AlignedTarget(t: Target, layer: (string, string)): Target {
    if t.success || layer.0 == "" then t else t.(error := Blame(layer.0, layer.1))
  }

  function Aligned(udp: bool, h: Health, ts: seq<Target>): (r: seq<Target>)
    ensures |r| == |ts|
  {
    if Successes(ts) > 0 then ts else seq(|ts|, i requires 0 <= i < |ts| => AlignedTarget(ts[i], Layer(udp, h)))
  }

  method AlignTargetErrors(h: Health, proto: string, targets: array<Target>)
    modifies targets
    ensures targets[..] == Aligned(IsUDPProto(proto), h, old(targets[..]))
  {
    hide IsUDPProto, Blame;
    ghost var was := targets[..];
    var ok := 0;
    for i := 0 to targets.Length
      invariant ok == Successes(targets[..i]) && targets[..] == was
    {
      assert targets[..i + 1] == targets[..i] + [targets[i]];
      OneMoreTarget(targets[..i], targets[i], Reset);
      if targets[i].success { ok := ok + 1; }
    }
    assert targets[..targets.Length] == targets[..];
    if ok > 0 { return; }
    if h.dnsErr != "" {
      BlameAll(targets, "DNS", h.dnsErr);
    } else if h.tcpErr != "" {
      BlameAll(targets, "TCP", h.tcpErr);
    } else if IsUDPProto(proto) && h.udpErr != "" {
      BlameAll(targets, "UDP", h.udpErr);
    }
    assert targets[..] == Aligned(IsUDPProto(proto), h, was);
  }

  method BlameAll(targets: array<Target>, layer: string, error: string)
    requires layer != ""
    modifies targets
    ensures forall i | 0 <= i < targets.Length :: targets[i] == AlignedTarget(old(targets[i]), (layer, error))
  {
    hide Blame;
    for i := 0 to targets.Length
      invariant forall k | 0 <= k < i :: targets[k] == AlignedTarget(old(targets[k]), (layer, error))
      invariant forall k | i <= k < targets.Length :: targets[k] == old(targets[k])
    {
      if !targets[i].success { targets[i] := targets[i].(error := Blame(layer, error)); }
    }
  }

  // ---------------------------------------------------------------- what they mean together

  lemma {:induction false} SuccessesMeans(ts: seq<Target>)
    ensures Successes(ts) == |ts| <==> forall i | 0 <= i < |ts| :: ts[i].success
    ensures Successes(ts) == 0 <==> forall i | 0 <= i < |ts| :: !ts[i].success
  {
    if ts != [] {
      SuccessesMeans(ts[..|ts| - 1]);
      var n := |ts| - 1;
      assert forall i | 0 <= i < n :: ts[..n][i] == ts[i];
    }
  }

  /** End-to-end reachability alone decides the status. */
  lemma StatusMeans(udp: bool, h: Health, ts: seq<Target>)
    ensures var s := Diagnosis(udp, h, ts).0;
            && (s.Online? <==> ts != [] && forall i | 0 <= i < |ts| :: ts[i].success)
            && (s.Offline? <==> forall i | 0 <= i < |ts| :: !ts[i].success)
  {
    hide RootCause;
    SuccessesMeans(ts);
    if ts != [] { assert ts[0].success || !ts[0].success; }
  }

  ghost function Succeeding(ts: seq<Target>): set<int> {
    set i | 0 <= i < |ts| && ts[i].success
  }

  lemma {:induction false} SuccessesCount(ts: seq<Target>)
    ensures Successes(ts) == |Succeeding(ts)|
  {
    if ts != [] {
      var n := |ts| - 1;
      SuccessesCount(ts[..n]);
      assert Succeeding(ts) == Succeeding(ts[..n]) + if ts[n].success then {n} else {};
    }
  }

  /** What is reported unless every target failed: all is well, or how many of how many succeed. */
  lemma SuccessMeans(udp: bool, h: Health, ts: seq<Target>)
    requires Succeeding(ts) != {}
    ensures Diagnosis(udp, h, ts) == if forall i | 0 <= i < |ts| :: ts[i].success then (Online, AllWell)
                                     else (Degraded, Partial(|Succeeding(ts)|, |ts|))
  {
    SuccessesMeans(ts);
    SuccessesCount(ts);
  }

  /** A UDP node with a TCP error and no other: no probe reports that, as UDP nodes are not probed over TCP. */
  predicate Unprobeable(udp: bool, h: Health) {
    udp && h.tcpErr != "" && h.dnsErr == "" && h.udpErr == ""
  }

  lemma AlignedSuccesses(udp: bool, h: Health, ts: seq<Target>)
    ensures Successes(Aligned(udp, h, ts)) == Successes(ts)
  {
    hide Blame, Layer;
    SuccessesMeans(ts);
    SuccessesMeans(Aligned(udp, h, ts));
  }

  /** Rewriting the errors of unreachable targets changes neither the status nor the verdict. */
  lemma AlignKeepsDiagnosis(udp: bool, h: Health, ts: seq<Target>)
    requires !Unprobeable(udp, h)
    ensures Diagnosis(udp, h, Aligned(udp, h, ts)) == Diagnosis(udp, h, ts)
  {
    hide Blame, SomeFail, Occurs;
    AlignedSuccesses(udp, h, ts);
    if Layer(udp, h).0 == "" { assert Aligned(udp, h, ts) == ts; }
  }

  // ---------------------------------------------------------------- the diagnosis in plain terms

  /** The error of some failing target holds this word, in any case. */
  ghost predicate Said(ts: seq<Target>, word: string) {
    exists i | 0 <= i < |ts| :: !ts[i].success && Occurs(Lower(ts[i].error), word)
  }

  /** The protocols that run over UDP. */
  ghost predicate OverUdp(proto: string) {
    Lower(Trim(proto)) in {"hysteria", "hysteria2", "tuic", "wireguard"}
  }

  /** What the targets' errors say when none succeeds and every layer of the node answered: the first that applies. */
  lemma TargetErrorsMean(proto: string, h: Health, ts: seq<Target>)
    requires forall i | 0 <= i < |ts| :: !ts[i].success
    requires h.dnsErr == "" && if OverUdp(proto) then h.udpErr == "" else h.tcpErr == "" && h.tlsErr == ""
    ensures var v := Diagnosis(IsUDPProto(proto), h, ts).1;
            var cut := Said(ts, "eof") || Said(ts, "reset");
            && (v == Restricted <==> Said(ts, "403"))
            && (v == SessionReset <==> !Said(ts, "403") && cut)
            && (v == TunnelTimeout <==> !Said(ts, "403") && !cut && Said(ts, "timeout"))
            && (v == TunnelFailed <==> !Said(ts, "403") && !cut && !Said(ts, "timeout"))
  {
    hide Occurs, Lower, Trim;
    SuccessesMeans(ts);
  }

  /** When none succeeds, a layer of the node that failed is to blame before any target, and in this order. */
  lemma LayersMean(proto: string, h: Health, ts: seq<Target>)
    requires forall i | 0 <= i < |ts| :: !ts[i].success
    ensures var v, udp := Diagnosis(IsUDPProto(proto), h, ts).1, OverUdp(proto);
            && (h.dnsErr != "" ==> v == DnsFailed(h.dnsErr))
            && (h.dnsErr == "" && udp && h.udpErr != "" ==>
                  v == if Occurs(Lower(h.udpErr), "refused") || Occurs(Lower(h.udpErr), "unreachable") then UdpRefused
                       else UdpFailed(h.udpErr))
            && (h.dnsErr == "" && !udp && h.tcpErr != "" ==>
                  v == if Occurs(h.tcpErr, "Timeout") then TcpTimeout
                       else if Occurs(Lower(h.tcpErr), "refused") then TcpRefused
                       else TcpFailed(h.tcpErr))
            && (h.dnsErr == "" && !udp && h.tcpErr == "" && h.tlsErr != "" ==> v == TlsFailed(h.tlsErr))
  {
    hide Occurs, Lower, Trim, SomeFail;
    SuccessesMeans(ts);
  }

  /** The error a failing target is left with names the first failed layer of DNS, TCP and, over UDP, UDP. */
  lemma BlamedMeans(proto: string, h: Health, ts: seq<Target>, i: nat)
    requires i < |ts| && forall k | 0 <= k < |ts| :: !ts[k].success
    ensures var t, udp := Aligned(IsUDPProto(proto), h, ts)[i], OverUdp(proto);
            && !t.success
            && (h.dnsErr != "" ==> t.error == "no tunnel (" + "DNS" + " failure of the node: " + h.dnsErr + ")")
            && (h.dnsErr == "" && h.tcpErr != "" ==>
                  t.error == "no tunnel (" + "TCP" + " failure of the node: " + h.tcpErr + ")")
            && (h.dnsErr == "" && h.tcpErr == "" && udp && h.udpErr != "" ==>
                  t.error == "no tunnel (" + "UDP" + " failure of the node: " + h.udpErr + ")")
            && (h.dnsErr == "" && h.tcpErr == "" && !(udp && h.udpErr != "") ==> t == ts[i])
  {
    hide Lower, Trim;
    SuccessesMeans(ts);
  }
}
