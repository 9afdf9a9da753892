/** What becomes of one request to the API, the error the client surfaces for it, and what that error lets
    the client conclude about the operation. */
module Transport {
  import opened Common

  /** The device failures the server stores as final. */
  datatype DeviceFailure =
    | BagPrintFailed | BindingUnavailable | NotReady | ScaleUnavailable | PrinterUnavailable
    | WeightFinalizationFailed | PostNotFound | PostNotActive | PostNotCommissioned | AgentOffline
    | AgentHeartbeatStale | AgentUpgradeRequired | AgentUnsupported | CapabilityMissing
    | PostBindingUnavailable | PostNotReady | PostHeartbeatStale | ProbeStale

  function DeviceCode(f: DeviceFailure): string {
    match f
    case BagPrintFailed => "DEFECT_BAG_PRINT_FAILED"
    case BindingUnavailable => "OPERATOR_DEVICE_BINDING_UNAVAILABLE"
    case NotReady => "OPERATOR_DEVICE_NOT_READY"
    case ScaleUnavailable => "OPERATOR_SCALE_UNAVAILABLE"
    case PrinterUnavailable => "OPERATOR_PRINTER_UNAVAILABLE"
    case WeightFinalizationFailed => "OPERATOR_WEIGHT_FINALIZATION_FAILED"
    case PostNotFound => "POST_NOT_FOUND"
    case PostNotActive => "POST_NOT_ACTIVE"
    case PostNotCommissioned => "POST_NOT_COMMISSIONED"
    case AgentOffline => "POST_AGENT_OFFLINE"
    case AgentHeartbeatStale => "POST_AGENT_HEARTBEAT_STALE"
    case AgentUpgradeRequired => "GATEWAY_AGENT_UPGRADE_REQUIRED"
    case AgentUnsupported => "GATEWAY_AGENT_UNSUPPORTED"
    case CapabilityMissing => "POST_CAPABILITY_MISSING"
    case PostBindingUnavailable => "POST_DEVICE_BINDING_UNAVAILABLE"
    case PostNotReady => "POST_DEVICE_NOT_READY"
    case PostHeartbeatStale => "POST_DEVICE_HEARTBEAT_STALE"
    case ProbeStale => "POST_DEVICE_PROBE_STALE"
  }

  /** What the server means by an answer. */
  datatype Answer =
    | Success(status: nat)
    | InProgress                                    // another request holds the key
    | LeaseLost                                     // another request took the key over
    | DeviceUnknown(device: string, status: nat)    // a device may have acted
    | Unavailable(status: nat, code: string)        // nobody can tell: a timeout, a crash, a proxy
    | DeviceFailed(status: nat, failure: DeviceFailure)  // stored as final
    | Refused(status: nat, code: string)            // the operation itself refuses
    | TurnedAway(status: nat, code: string)         // refused before the operation looks at its key

  /** `readable`: the body arrives whole. */
  datatype Reply =
    | Unsent                       // `execute` throws before anything is sent
    | Unreached                    // the connection fails
    | Interrupted(timedOut: bool)  // a signal aborts the request
    | Answered(answer: Answer, readable: bool)

  const TERMINAL_CODES := {
    "DEFECT_BAG_PRINT_FAILED", "OPERATOR_DEVICE_BINDING_UNAVAILABLE", "OPERATOR_DEVICE_NOT_READY",
    "OPERATOR_SCALE_UNAVAILABLE", "OPERATOR_PRINTER_UNAVAILABLE", "OPERATOR_WEIGHT_FINALIZATION_FAILED",
    "POST_NOT_FOUND", "POST_NOT_ACTIVE", "POST_NOT_COMMISSIONED", "POST_AGENT_OFFLINE",
    "POST_AGENT_HEARTBEAT_STALE", "GATEWAY_AGENT_UPGRADE_REQUIRED", "GATEWAY_AGENT_UNSUPPORTED",
    "POST_CAPABILITY_MISSING", "POST_DEVICE_BINDING_UNAVAILABLE", "POST_DEVICE_NOT_READY",
    "POST_DEVICE_HEARTBEAT_STALE", "POST_DEVICE_PROBE_STALE"}

  const UNCERTAIN_CODES := {"OPERATOR_OPERATION_IN_PROGRESS", "OPERATOR_OPERATION_LEASE_LOST"}

  predicate EndsWith(s: string, suffix: string) {
    |s| >= |suffix| && s[|s| - |suffix|..] == suffix
  }

  /** A status that leaves open what happened. */
  predicate Vague(status: nat) { status == 408 || status >= 500 }

  /** The codes and statuses the server keeps for each kind of answer. */
  predicate Possible(reply: Reply) {
    reply.Answered? ==>
      match reply.answer
      case Success(status) => 200 <= status < 300
      case DeviceUnknown(device, status) => status >= 300 && SafeCode(device + "_DELIVERY_UNKNOWN")
      case Unavailable(status, code) => Vague(status) && forall f :: code != DeviceCode(f)
      case DeviceFailed(status, _) => status >= 300
      case Refused(status, code) => PlainRefusal(status, code)
      case TurnedAway(status, code) => PlainRefusal(status, code)
      case _ => true
  }

  predicate PlainRefusal(status: nat, code: string) {
    300 <= status && !Vague(status) && code != "OPERATOR_OPERATION_IN_PROGRESS"
    && code != "OPERATOR_OPERATION_LEASE_LOST" && !EndsWith(code, "_DELIVERY_UNKNOWN")
  }

  function Status(a: Answer): nat {
    match a
    case InProgress => 409
    case LeaseLost => 409
    case _ => a.status
  }

  function Code(a: Answer): string {
    match a
    case Success(_) => ""
    case InProgress => "OPERATOR_OPERATION_IN_PROGRESS"
    case LeaseLost => "OPERATOR_OPERATION_LEASE_LOST"
    case DeviceUnknown(device, _) => device + "_DELIVERY_UNKNOWN"
    case DeviceFailed(_, failure) => DeviceCode(failure)
    case _ => a.code
  }

  // The client

  datatype Failure =
    | ParseFailure(deliveryUncertain: bool)
    | ApiFailure(status: int, code: string)  // an absent code is the empty string
    | TypeFailure
    | DomFailure(name: string)
    | OtherFailure

  datatype Result = Resolved | Rejected(error: Failure)

  predicate CodeChar(c: char) { 'A' <= c <= 'Z' || '0' <= c <= '9' || c == '_' }

  /** The codes the client lets through: an upper-case letter, then at most 127 more characters. */
  predicate SafeCode(code: string) {
    1 <= |code| <= 128 && 'A' <= code[0] <= 'Z' && forall i | 0 <= i < |code| :: CodeChar(code[i])
  }

  /** `request` of the API client. */
  function Surfaced(reply: Reply): Result {
    match reply
    case Unsent => Rejected(OtherFailure)
    case Unreached => Rejected(TypeFailure)
    case Interrupted(timedOut) => Rejected(DomFailure(if timedOut then "TimeoutError" else "AbortError"))
    case Answered(answer, readable) =>
      if 200 <= Status(answer) < 300 then if readable then Resolved else Rejected(ParseFailure(true))
      else Rejected(ApiFailure(Status(answer), if readable && SafeCode(Code(answer)) then Code(answer) else ""))
  }

  /** `isDeliveryUncertain`: the request may have taken effect although no success was reported. */
  predicate DeliveryUncertain(f: Failure) {
    match f
    case ParseFailure(uncertain) => uncertain
    case ApiFailure(status, code) =>
      code !in TERMINAL_CODES &&
      (status == 408 || status >= 500 || code in UNCERTAIN_CODES || EndsWith(code, "_DELIVERY_UNKNOWN"))
    case TypeFailure => true
    case DomFailure(name) => name == "AbortError" || name == "TimeoutError"
    case OtherFailure => false
  }

  /** Success and definite failure close an intent; an uncertain outcome keeps it open. */
  predicate Closing(r: Result) { r.Resolved? || !DeliveryUncertain(r.error) }

  // What the client may conclude

  /** The server says that the operation failed, for good. */
  predicate Fails(reply: Reply) { reply.Answered? && (reply.answer.DeviceFailed? || reply.answer.Refused?) }

  /** The operation was not asked at all. */
  predicate Unasked(reply: Reply) { reply.Unsent? || (reply.Answered? && reply.answer.TurnedAway?) }

  /** The server answers that it cannot tell yet, and the code that says so is lost with the body. */
  predicate CodeLost(reply: Reply) {
    reply.Answered? && !reply.readable
    && (reply.answer.InProgress? || reply.answer.LeaseLost?
        || (reply.answer.DeviceUnknown? && !Vague(reply.answer.status)))
  }

  /** A success that could be read; a failure, unless its code was lost and its status is vague; a request
      that asked nothing; and, wrongly, an undecided answer whose code was lost. */
  predicate ClosesIntent(reply: Reply) {
    (reply.Answered? && reply.answer.Success? && reply.readable)
    || (Fails(reply) && (reply.readable || !Vague(Status(reply.answer))))
    || Unasked(reply) || CodeLost(reply)
  }

  /** Exactly these close the intent in the client. */
  lemma ClosesIff(reply: Reply)
    requires Possible(reply)
    ensures Closing(Surfaced(reply)) <==> ClosesIntent(reply)
  {
    CodesApart();
    if reply.Answered? {
      ServerCodesAreSafe(reply.answer);
    }
    hide SafeCode;
    TerminalCodes(if reply.Answered? then Code(reply.answer) else "");
    if reply.Answered? && reply.answer.DeviceUnknown? {
      var device := reply.answer.device;
      assert (device + "_DELIVERY_UNKNOWN")[|device|..] == "_DELIVERY_UNKNOWN";
      UnknownNotTerminal(device);
    }
  }

  /** Only a success that could be read resolves. */
  lemma ResolvesIff(reply: Reply)
    requires Possible(reply)
    ensures Surfaced(reply).Resolved? <==> reply.Answered? && reply.answer.Success? && reply.readable
  {
  }

  lemma ServerCodesAreSafe(a: Answer)
    ensures a.InProgress? || a.LeaseLost? || a.DeviceFailed? ==> SafeCode(Code(a))
  {
    if a.DeviceFailed? {
      DeviceCodeIsSafe(a.failure);
    }
  }

  lemma DeviceCodeIsSafe(f: DeviceFailure)
    ensures SafeCode(DeviceCode(f))
  {
    hide SafeCode, DeviceCode;
    if f.BagPrintFailed? || f.BindingUnavailable? || f.NotReady? {
      SafeCodes1(f);
    } else if f.ScaleUnavailable? || f.PrinterUnavailable? || f.WeightFinalizationFailed? {
      SafeCodes2(f);
    } else if f.PostNotFound? || f.PostNotActive? || f.PostNotCommissioned? {
      SafeCodes3(f);
    } else if f.AgentOffline? || f.AgentHeartbeatStale? || f.AgentUpgradeRequired? {
      SafeCodes4(f);
    } else if f.AgentUnsupported? || f.CapabilityMissing? || f.PostBindingUnavailable? {
      SafeCodes5(f);
    } else {
      SafeCodes6(f);
    }
  }

  lemma SafeCodes1(f: DeviceFailure)
    requires f.BagPrintFailed? || f.BindingUnavailable? || f.NotReady?
    ensures SafeCode(DeviceCode(f))
  {
  }

  lemma SafeCodes2(f: DeviceFailure)
    requires f.ScaleUnavailable? || f.PrinterUnavailable? || f.WeightFinalizationFailed?
    ensures SafeCode(DeviceCode(f))
  {
  }

  lemma SafeCodes3(f: DeviceFailure)
    requires f.PostNotFound? || f.PostNotActive? || f.PostNotCommissioned?
    ensures SafeCode(DeviceCode(f))
  {
  }

  lemma SafeCodes4(f: DeviceFailure)
    requires f.AgentOffline? || f.AgentHeartbeatStale? || f.AgentUpgradeRequired?
    ensures SafeCode(DeviceCode(f))
  {
  }

  lemma SafeCodes5(f: DeviceFailure)
    requires f.AgentUnsupported? || f.CapabilityMissing? || f.PostBindingUnavailable?
    ensures SafeCode(DeviceCode(f))
  {
  }

  lemma SafeCodes6(f: DeviceFailure)
    requires f.PostNotReady? || f.PostHeartbeatStale? || f.ProbeStale?
    ensures SafeCode(DeviceCode(f))
  {
  }

  lemma CodesApart()
    ensures TERMINAL_CODES !! UNCERTAIN_CODES && "" !in TERMINAL_CODES && "" !in UNCERTAIN_CODES
  {
  }

  lemma FailureOf(code: string) returns (f: DeviceFailure)
    requires code in TERMINAL_CODES
    ensures DeviceCode(f) == code
  {
    if code == "DEFECT_BAG_PRINT_FAILED" {
      f := BagPrintFailed;
    } else if code == "OPERATOR_DEVICE_BINDING_UNAVAILABLE" {
      f := BindingUnavailable;
    } else if code == "OPERATOR_DEVICE_NOT_READY" {
      f := NotReady;
    } else if code == "OPERATOR_SCALE_UNAVAILABLE" {
      f := ScaleUnavailable;
    } else if code == "OPERATOR_PRINTER_UNAVAILABLE" {
      f := PrinterUnavailable;
    } else if code == "OPERATOR_WEIGHT_FINALIZATION_FAILED" {
      f := WeightFinalizationFailed;
    } else if code == "POST_NOT_FOUND" {
      f := PostNotFound;
    } else if code == "POST_NOT_ACTIVE" {
      f := PostNotActive;
    } else if code == "POST_NOT_COMMISSIONED" {
      f := PostNotCommissioned;
    } else if code == "POST_AGENT_OFFLINE" {
      f := AgentOffline;
    } else if code == "POST_AGENT_HEARTBEAT_STALE" {
      f := AgentHeartbeatStale;
    } else if code == "GATEWAY_AGENT_UPGRADE_REQUIRED" {
      f := AgentUpgradeRequired;
    } else if code == "GATEWAY_AGENT_UNSUPPORTED" {
      f := AgentUnsupported;
    } else if code == "POST_CAPABILITY_MISSING" {
      f := CapabilityMissing;
    } else if code == "POST_DEVICE_BINDING_UNAVAILABLE" {
      f := PostBindingUnavailable;
    } else if code == "POST_DEVICE_NOT_READY" {
      f := PostNotReady;
    } else if code == "POST_DEVICE_HEARTBEAT_STALE" {
      f := PostHeartbeatStale;
    } else {
      f := ProbeStale;
    }
  }

  /** The client's list is exactly the server's final device failures. */
  lemma TerminalCodes(code: string)
    ensures code in TERMINAL_CODES <==> exists f :: code == DeviceCode(f)
  {
    if code in TERMINAL_CODES {
      var f := FailureOf(code);
    }
  }

  lemma UnknownNotTerminal(device: string)
    ensures device + "_DELIVERY_UNKNOWN" !in TERMINAL_CODES
  {
    var code := device + "_DELIVERY_UNKNOWN";
    assert code[|code| - 1] == 'N' && code[|code| - 2] == 'W' && code[|code| - 3] == 'O';
  }
}
