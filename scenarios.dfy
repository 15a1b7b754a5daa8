/** End-to-end runs of the handlers and the wake-up loop on small stores. */
module Scenarios {
  import opened Apns
  import opened Store
  import opened Server
  import opened Notifier

  /** Register `abc`, then a cycle in which the gateway delivers: the token stays. */
  method RegisterThenDelivered() returns (status: int, sent: seq<Request>, kept: bool)
    ensures status == StatusOk
    ensures sent == [Request(Production, "abc", Silent)]
    ensures kept
  {
    var db := new Db(map[]);
    status := RegisterDevice(db, "abc", Done, Done);
    var env := Environment(m => [Entry("abc", Marker)], t => Ok(200), t => Done);
    sent := Wakeup(db, Production, env);
    kept := "abc" in db.entries;
  }

  /** A stored sandbox token is sent as stored, prefix included, through the
      loop's one client, and any response error prunes it. */
  method SandboxTokenInCycle(endpoint: Endpoint, code: int) returns (sent: seq<Request>, kept: bool)
    ensures sent == [Request(endpoint, "sandbox:xyz", Silent)]
    ensures !kept
  {
    var db := new Db(map["sandbox:xyz" := Marker]);
    var env := Environment(m => [Entry("sandbox:xyz", Marker)], t => ResponseError(code), t => Done);
    sent := Wakeup(db, endpoint, env);
    kept := "sandbox:xyz" in db.entries;
  }

  /** A failed send that carries no gateway response prunes nothing. */
  method TransportFailureKeeps() returns (sent: seq<Request>, kept: bool)
    ensures |sent| == 1 && kept
  {
    var db := new Db(map["abc" := Marker]);
    var env := Environment(m => [Entry("abc", Marker)], t => OtherError, t => Done);
    sent := Wakeup(db, Production, env);
    kept := "abc" in db.entries;
  }

  /** An empty store: a cycle with no send. */
  method EmptyStoreCycle(endpoint: Endpoint) returns (sent: seq<Request>, size: nat)
    ensures sent == [] && size == 0
  {
    var db := new Db(map[]);
    var env := Environment(m => [], t => OtherError, t => Done);
    sent := Wakeup(db, endpoint, env);
    size := |db.entries|;
  }

  /** `POST /notify` with `def` answered by 410: Gone, and `def` is unsubscribed. */
  method NotifyGone() returns (status: int, request: Request, kept: bool)
    ensures status == StatusGone
    ensures request == Request(Production, "def", Visible)
    ensures !kept
  {
    var db := new Db(map["def" := Marker]);
    status, request := NotifyDevice(db, "def", ResponseError(Unregistered), Done);
    kept := "def" in db.entries;
  }

  /** `POST /notify` with `sandbox:def` answered by 410: Gone, sent to the
      sandbox client as `def`, and the stored `sandbox:def` survives. */
  method NotifyGoneSandbox() returns (status: int, request: Request, kept: bool)
    ensures status == StatusGone
    ensures request == Request(Sandbox, "def", Visible)
    ensures kept
  {
    var db := new Db(map["sandbox:def" := Marker]);
    status, request := NotifyDevice(db, "sandbox:def", ResponseError(Unregistered), Done);
    kept := "sandbox:def" in db.entries;
  }

  /** Registering a token twice leaves the store as registering it once. */
  method RegisterTwice(m: map<string, seq<byte>>, token: string) returns (once: map<string, seq<byte>>, twice: map<string, seq<byte>>)
    ensures once == twice
    ensures token in twice && twice[token] == Marker
  {
    var a := new Db(m);
    var _ := RegisterDevice(a, token, Done, Done);
    once := a.entries;
    var b := new Db(m);
    var _ := RegisterDevice(b, token, Done, Done);
    var _ := RegisterDevice(b, token, Done, Done);
    twice := b.entries;
  }
}
