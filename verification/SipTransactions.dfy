/** The SIP transactions as objects: each handler switches on the state, updates the fields and
    the user agent's timers, and is tied to the step of `SipModel` that it takes. */
module SipTransactions {
  import opened SipModel
  import opened SipLaws

  /** What a transaction that belongs to a client keeps: exactly its own timers run, and the user
      agent has been told one final response once there is one. */
  ghost predicate ClientOk(k: Kind, a: Agent) {
    Exact(k, a) && OneFinal(a)
  }

  /** The same for a server, whose user agent has been told of the request once. */
  ghost predicate ServerOk(k: Kind, a: Agent) {
    Exact(k, a) && HeardOnce(a)
  }

  lemma ClientKeeps(k: Kind, a: Agent, now: int, e: Event)
    requires (k == ClientInvite || k == ClientNonInvite) && ClientOk(k, a) && Possible(a, now, e)
    ensures ClientOk(k, On(k, a, now, e)) <==> !(k == ClientInvite && e.ErrorEvent? && a.state == Completed)
  {
    hide Exact, OneFinal, On;
    OnKeeps(k, a, now, e);
    OneFinalIff(k, a, now, e);
  }

  lemma ServerKeeps(k: Kind, a: Agent, now: int, e: Event)
    requires (k == ServerInvite || k == ServerNonInvite) && ServerOk(k, a) && Possible(a, now, e)
    ensures ServerOk(k, On(k, a, now, e))
  {
    hide Exact, HeardOnce, On;
    OnKeeps(k, a, now, e);
    HeardOnceKeeps(k, a, now, e);
  }

  /** The timers of a user agent, one of each kind whatever its transactions are. */
  class UserAgent {
    var due: map<Timer, int>
    var value: map<Timer, int>
    ghost var stray: set<Timer>

    constructor ()
      ensures due == map[] && value == map[] && stray == {}
    {
      due, value, stray := map[], map[], {};
    }

    function GetTimerValue(t: Timer): int
      reads this`value
    {
      if t in value then value[t] else 0
    }

    method SetTimerValue(t: Timer, v: int)
      modifies this`value
      ensures value == old(value)[t := v]
    {
      value := value[t := v];
    }

    /** An alarm is set for the timer's value, once. The one that is running already cannot be
        stopped any more. */
    method StartTimer(t: Timer, now: int)
      modifies this`due, this`stray
      ensures due == old(due)[t := now + GetTimerValue(t)]
      ensures stray == if t in old(due) then old(stray) + {t} else old(stray)
    {
      if t in due {
        stray := stray + {t};
      }
      due := due[t := now + GetTimerValue(t)];
    }

    method StopTimer(t: Timer)
      modifies this`due
      ensures due == old(due) - {t}
    {
      due := due - {t};
    }
  }

  /** What all transactions have in common. */
  class Transaction {
    const ua: UserAgent
    var curState: State
    ghost var log: seq<Note>

    constructor (ua: UserAgent)
      ensures this.ua == ua && curState == Idle && log == []
    {
      this.ua, curState, log := ua, Idle, [];
    }

    ghost function View(): Agent
      reads this, ua
    {
      Agent(curState, ua.due, ua.value, ua.stray, [], log)
    }

    method StartTimer(t: Timer, v: int, now: int)
      modifies ua
      ensures View() == Start(old(View()), t, v, now)
    {
      ua.SetTimerValue(t, v);
      ua.StartTimer(t, now);
    }

    method SendMessage(m: Message)
      modifies this`log
      ensures View() == Send(old(View()), m)
    {
      log := log + [Sent(m)];
    }

    method ReceiveMsg(m: Message)
      modifies this`log
      ensures View() == Tell(old(View()), m)
    {
      log := log + [Told(m)];
    }
  }

  class ClientInviteTransaction {
    const base: Transaction

    /** All is well from the start unless another transaction of the kind has the timers. */
    constructor (ua: UserAgent)
      ensures base.ua == ua && fresh(base) && View().(due := map[], value := map[], stray := {}) == FRESH
      ensures Valid() <==> forall t :: t in Own(ClientInvite) ==> t !in ua.due && t !in ua.stray
    {
      base := new Transaction(ua);
    }

    ghost function View(): Agent
      reads base, base.ua
    {
      base.View()
    }

    ghost predicate Valid()
      reads base, base.ua
    {
      ClientOk(ClientInvite, View())
    }

    /** `clear` and the destructor. */
    method Clear()
      modifies base, base.ua`due
      ensures View() == SipModel.Clear(old(View()), Own(ClientInvite))
    {
      base.ua.StopTimer(A);
      base.ua.StopTimer(B);
      base.ua.StopTimer(D);
      base.curState := Terminated;
    }

    method SendInvite(now: int)
      requires Valid()
      modifies base, base.ua
      ensures View() == OnClientInvite(old(View()), now, RequestEvent)
      ensures Valid()
    {
      ClientKeeps(ClientInvite, View(), now, RequestEvent);
      hide ClientOk;
      if base.curState == Idle {
        base.curState := Calling;
        base.SendMessage(Request);
        base.StartTimer(A, T1, now);
        base.StartTimer(B, T1 * 64, now);
      }
    }

    method Receive1xx(code: int, now: int)
      requires Valid() && code < 200
      modifies base, base.ua
      ensures View() == OnClientInvite(old(View()), now, ReplyEvent(code))
      ensures Valid()
    {
      ClientKeeps(ClientInvite, View(), now, ReplyEvent(code));
      hide ClientOk;
      if base.curState == Calling {
        base.curState := Proceeding;
        base.ua.StopTimer(A);
        base.ua.StopTimer(B);
        base.ReceiveMsg(Response(code));
      } else if base.curState == Proceeding {
        base.ReceiveMsg(Response(code));
      }
    }

    method Receive2xx(code: int, now: int)
      requires Valid() && 200 <= code < 300
      modifies base, base.ua
      ensures View() == OnClientInvite(old(View()), now, ReplyEvent(code))
      ensures Valid()
    {
      ClientKeeps(ClientInvite, View(), now, ReplyEvent(code));
      hide ClientOk;
      if base.curState == Calling {
        base.ua.StopTimer(A);
        base.ua.StopTimer(B);
        base.ReceiveMsg(Response(code));
        Clear();
      } else if base.curState == Proceeding {
        base.ReceiveMsg(Response(code));
        Clear();
      }
    }

    method Receive3xx6xx(code: int, now: int)
      requires Valid() && 300 <= code
      modifies base, base.ua
      ensures View() == OnClientInvite(old(View()), now, ReplyEvent(code))
      ensures Valid()
    {
      ClientKeeps(ClientInvite, View(), now, ReplyEvent(code));
      hide ClientOk;
      if base.curState == Calling {
        base.curState := Completed;
        base.SendMessage(Ack);
        base.StartTimer(D, T32, now);
        base.ua.StopTimer(A);
        base.ua.StopTimer(B);
        base.ReceiveMsg(Response(code));
      } else if base.curState == Proceeding {
        base.curState := Completed;
        base.SendMessage(Ack);
        base.StartTimer(D, T32, now);
        base.ReceiveMsg(Response(code));
      } else if base.curState == Completed {
        base.SendMessage(Ack);
      }
    }

    method TransportError(now: int)
      requires Valid()
      modifies base, base.ua
      ensures View() == OnClientInvite(old(View()), now, ErrorEvent)
      ensures Valid() <==> old(base.curState) != Completed
    {
      ClientKeeps(ClientInvite, View(), now, ErrorEvent);
      hide ClientOk;
      if base.curState == Calling {
        base.ua.StopTimer(A);
        base.ua.StopTimer(B);
        base.ReceiveMsg(Response(503));
        Clear();
      } else if base.curState == Completed {
        base.ua.StopTimer(D);
        base.ReceiveMsg(Response(503));
        Clear();
      }
    }

    /** An alarm that has fired is no longer set. */
    method TimerAExpired(now: int)
      requires Valid() && A in base.ua.due && base.ua.due[A] <= now
      modifies base, base.ua
      ensures View() == OnClientInvite(old(View()), now, ExpireEvent(A))
      ensures Valid()
    {
      ClientKeeps(ClientInvite, View(), now, ExpireEvent(A));
      hide ClientOk;
      base.ua.StopTimer(A);
      if base.curState == Calling {
        base.StartTimer(A, base.ua.GetTimerValue(A) * 2, now);
        base.SendMessage(Request);
      }
    }

    method TimerBExpired(now: int)
      requires Valid() && B in base.ua.due && base.ua.due[B] <= now
      modifies base, base.ua
      ensures View() == OnClientInvite(old(View()), now, ExpireEvent(B))
      ensures Valid()
    {
      ClientKeeps(ClientInvite, View(), now, ExpireEvent(B));
      hide ClientOk;
      base.ua.StopTimer(B);
      if base.curState == Calling {
        base.ua.StopTimer(A);
        base.ReceiveMsg(Response(408));
        Clear();
      }
    }

    method TimerDExpired(now: int)
      requires Valid() && D in base.ua.due && base.ua.due[D] <= now
      modifies base, base.ua
      ensures View() == OnClientInvite(old(View()), now, ExpireEvent(D))
      ensures Valid()
    {
      ClientKeeps(ClientInvite, View(), now, ExpireEvent(D));
      hide ClientOk;
      base.ua.StopTimer(D);
      if base.curState == Completed {
        Clear();
      }
    }
  }

  class ClientNonInviteTransaction {
    const base: Transaction

    /** All is well from the start unless another transaction of the kind has the timers. */
    constructor (ua: UserAgent)
      ensures base.ua == ua && fresh(base) && View().(due := map[], value := map[], stray := {}) == FRESH
      ensures Valid() <==> forall t :: t in Own(ClientNonInvite) ==> t !in ua.due && t !in ua.stray
    {
      base := new Transaction(ua);
    }

    ghost function View(): Agent
      reads base, base.ua
    {
      base.View()
    }

    ghost predicate Valid()
      reads base, base.ua
    {
      ClientOk(ClientNonInvite, View())
    }

    method Clear()
      modifies base, base.ua`due
      ensures View() == SipModel.Clear(old(View()), Own(ClientNonInvite))
    {
      base.ua.StopTimer(E);
      base.ua.StopTimer(F);
      base.ua.StopTimer(K);
      base.curState := Terminated;
    }

    method SendRequest(now: int)
      requires Valid()
      modifies base, base.ua
      ensures View() == OnClientNonInvite(old(View()), now, RequestEvent)
      ensures Valid()
    {
      ClientKeeps(ClientNonInvite, View(), now, RequestEvent);
      hide ClientOk;
      if base.curState == Idle {
        base.curState := Trying;
        base.SendMessage(Request);
        base.StartTimer(E, T1, now);
        base.StartTimer(F, T1 * 64, now);
      }
    }

    method Receive1xx(code: int, now: int)
      requires Valid() && code < 200
      modifies base, base.ua
      ensures View() == OnClientNonInvite(old(View()), now, ReplyEvent(code))
      ensures Valid()
    {
      ClientKeeps(ClientNonInvite, View(), now, ReplyEvent(code));
      hide ClientOk;
      if base.curState == Trying || base.curState == Proceeding {
        base.curState := Proceeding;
        base.ReceiveMsg(Response(code));
      }
    }

    method Receive2xx6xx(code: int, now: int)
      requires Valid() && 200 <= code
      modifies base, base.ua
      ensures View() == OnClientNonInvite(old(View()), now, ReplyEvent(code))
      ensures Valid()
    {
      ClientKeeps(ClientNonInvite, View(), now, ReplyEvent(code));
      hide ClientOk;
      if base.curState == Trying || base.curState == Proceeding {
        base.curState := Completed;
        base.StartTimer(K, T4, now);
        base.ua.StopTimer(E);
        base.ua.StopTimer(F);
        base.ReceiveMsg(Response(code));
      }
    }

    method TransportError(now: int)
      requires Valid()
      modifies base, base.ua
      ensures View() == OnClientNonInvite(old(View()), now, ErrorEvent)
      ensures Valid()
    {
      ClientKeeps(ClientNonInvite, View(), now, ErrorEvent);
      hide ClientOk;
      if base.curState == Trying || base.curState == Proceeding {
        base.ua.StopTimer(E);
        base.ua.StopTimer(F);
        base.ReceiveMsg(Response(503));
        Clear();
      }
    }

    method TimerEExpired(now: int)
      requires Valid() && E in base.ua.due && base.ua.due[E] <= now
      modifies base, base.ua
      ensures View() == OnClientNonInvite(old(View()), now, ExpireEvent(E))
      ensures Valid()
    {
      ClientKeeps(ClientNonInvite, View(), now, ExpireEvent(E));
      hide ClientOk;
      base.ua.StopTimer(E);
      if base.curState == Trying {
        var timerValue := if base.ua.GetTimerValue(E) * 2 < T2 then base.ua.GetTimerValue(E) * 2 else T2;
        base.StartTimer(E, timerValue, now);
        base.SendMessage(Request);
      } else if base.curState == Proceeding {
        base.StartTimer(E, T2, now);
        base.SendMessage(Request);
      }
    }

    method TimerFExpired(now: int)
      requires Valid() && F in base.ua.due && base.ua.due[F] <= now
      modifies base, base.ua
      ensures View() == OnClientNonInvite(old(View()), now, ExpireEvent(F))
      ensures Valid()
    {
      ClientKeeps(ClientNonInvite, View(), now, ExpireEvent(F));
      hide ClientOk;
      base.ua.StopTimer(F);
      if base.curState == Trying || base.curState == Proceeding {
        base.ua.StopTimer(E);
        base.ReceiveMsg(Response(408));
        Clear();
      }
    }

    method TimerKExpired(now: int)
      requires Valid() && K in base.ua.due && base.ua.due[K] <= now
      modifies base, base.ua
      ensures View() == OnClientNonInvite(old(View()), now, ExpireEvent(K))
      ensures Valid()
    {
      ClientKeeps(ClientNonInvite, View(), now, ExpireEvent(K));
      hide ClientOk;
      base.ua.StopTimer(K);
      if base.curState == Completed {
        Clear();
      }
    }
  }

  class ServerInviteTransaction {
    const base: Transaction
    var lastResponse: seq<Message>

    /** All is well from the start unless another transaction of the kind has the timers. */
    constructor (ua: UserAgent)
      ensures base.ua == ua && fresh(base) && View().(due := map[], value := map[], stray := {}) == FRESH
      ensures Valid() <==> forall t :: t in Own(ServerInvite) ==> t !in ua.due && t !in ua.stray
    {
      base := new Transaction(ua);
      lastResponse := [];
    }

    ghost function View(): Agent
      reads this, base, base.ua
    {
      base.View().(last := lastResponse)
    }

    ghost predicate Valid()
      reads this, base, base.ua
    {
      ServerOk(ServerInvite, View())
    }

    method Clear()
      modifies base, base.ua`due
      ensures View() == SipModel.Clear(old(View()), Own(ServerInvite))
    {
      base.ua.StopTimer(G);
      base.ua.StopTimer(H);
      base.ua.StopTimer(I);
      base.curState := Terminated;
    }

    method ReceiveInvite(now: int)
      requires Valid()
      modifies this, base, base.ua
      ensures View() == OnServerInvite(old(View()), now, RequestEvent)
      ensures Valid()
    {
      ServerKeeps(ServerInvite, View(), now, RequestEvent);
      hide ServerOk;
      if base.curState == Idle {
        base.curState := Proceeding;
        base.ReceiveMsg(Request);
      } else if base.curState == Proceeding {
        if lastResponse != [] {
          base.SendMessage(lastResponse[0]);
        }
      } else if base.curState == Completed {
        if lastResponse != [] {
          base.SendMessage(lastResponse[0]);
        }
      }
    }

    method ReceiveAck(now: int)
      requires Valid()
      modifies this, base, base.ua
      ensures View() == OnServerInvite(old(View()), now, AckEvent)
      ensures Valid()
    {
      ServerKeeps(ServerInvite, View(), now, AckEvent);
      hide ServerOk;
      if base.curState == Completed {
        base.curState := Confirmed;
        base.StartTimer(I, T4, now);
        base.ua.StopTimer(G);
        base.ua.StopTimer(H);
      }
    }

    method Send1xx(code: int, now: int)
      requires Valid() && code < 200
      modifies this, base, base.ua
      ensures View() == OnServerInvite(old(View()), now, ReplyEvent(code))
      ensures Valid()
    {
      ServerKeeps(ServerInvite, View(), now, ReplyEvent(code));
      hide ServerOk;
      if base.curState == Proceeding {
        lastResponse := [Response(code)];
        base.SendMessage(lastResponse[0]);
      }
    }

    method Send2xx(code: int, now: int)
      requires Valid() && 200 <= code < 300
      modifies this, base, base.ua
      ensures View() == OnServerInvite(old(View()), now, ReplyEvent(code))
      ensures Valid()
    {
      ServerKeeps(ServerInvite, View(), now, ReplyEvent(code));
      hide ServerOk;
      if base.curState == Proceeding {
        base.SendMessage(Response(code));
        Clear();
      }
    }

    method Send3xx6xx(code: int, now: int)
      requires Valid() && 300 <= code
      modifies this, base, base.ua
      ensures View() == OnServerInvite(old(View()), now, ReplyEvent(code))
      ensures Valid()
    {
      ServerKeeps(ServerInvite, View(), now, ReplyEvent(code));
      hide ServerOk;
      if base.curState == Proceeding {
        base.curState := Completed;
        lastResponse := [Response(code)];
        base.SendMessage(lastResponse[0]);
        base.StartTimer(G, T1, now);
        base.StartTimer(H, T1 * 64, now);
      }
    }

    method TransportError(now: int)
      requires Valid()
      modifies this, base, base.ua
      ensures View() == OnServerInvite(old(View()), now, ErrorEvent)
      ensures Valid()
    {
      ServerKeeps(ServerInvite, View(), now, ErrorEvent);
      hide ServerOk;
      if base.curState == Proceeding {
        Clear();
      } else if base.curState == Completed {
        base.ua.StopTimer(G);
        base.ua.StopTimer(H);
        Clear();
      }
    }

    method TimerGExpired(now: int)
      requires Valid() && G in base.ua.due && base.ua.due[G] <= now
      modifies this, base, base.ua
      ensures View() == OnServerInvite(old(View()), now, ExpireEvent(G))
      ensures Valid()
    {
      ServerKeeps(ServerInvite, View(), now, ExpireEvent(G));
      hide ServerOk;
      base.ua.StopTimer(G);
      if base.curState == Completed {
        var timerValue := if base.ua.GetTimerValue(G) * 2 < T2 then base.ua.GetTimerValue(G) * 2 else T2;
        base.StartTimer(G, timerValue, now);
        if lastResponse != [] {
          base.SendMessage(lastResponse[0]);
        }
      }
    }

    method TimerHExpired(now: int)
      requires Valid() && H in base.ua.due && base.ua.due[H] <= now
      modifies this, base, base.ua
      ensures View() == OnServerInvite(old(View()), now, ExpireEvent(H))
      ensures Valid()
    {
      ServerKeeps(ServerInvite, View(), now, ExpireEvent(H));
      hide ServerOk;
      base.ua.StopTimer(H);
      if base.curState == Completed {
        base.ua.StopTimer(G);
        Clear();
      }
    }

    method TimerIExpired(now: int)
      requires Valid() && I in base.ua.due && base.ua.due[I] <= now
      modifies this, base, base.ua
      ensures View() == OnServerInvite(old(View()), now, ExpireEvent(I))
      ensures Valid()
    {
      ServerKeeps(ServerInvite, View(), now, ExpireEvent(I));
      hide ServerOk;
      base.ua.StopTimer(I);
      if base.curState == Confirmed {
        Clear();
      }
    }
  }

  class ServerNonInviteTransaction {
    const base: Transaction
    var lastResponse: seq<Message>

    /** All is well from the start unless another transaction of the kind has the timers. */
    constructor (ua: UserAgent)
      ensures base.ua == ua && fresh(base) && View().(due := map[], value := map[], stray := {}) == FRESH
      ensures Valid() <==> forall t :: t in Own(ServerNonInvite) ==> t !in ua.due && t !in ua.stray
    {
      base := new Transaction(ua);
      lastResponse := [];
    }

    ghost function View(): Agent
      reads this, base, base.ua
    {
      base.View().(last := lastResponse)
    }

    ghost predicate Valid()
      reads this, base, base.ua
    {
      ServerOk(ServerNonInvite, View())
    }

    method Clear()
      modifies base, base.ua`due
      ensures View() == SipModel.Clear(old(View()), Own(ServerNonInvite))
    {
      base.ua.StopTimer(J);
      base.curState := Terminated;
    }

    method ReceiveRequest(now: int)
      requires Valid()
      modifies this, base, base.ua
      ensures View() == OnServerNonInvite(old(View()), now, RequestEvent)
      ensures Valid()
    {
      ServerKeeps(ServerNonInvite, View(), now, RequestEvent);
      hide ServerOk;
      if base.curState == Idle {
        base.curState := Trying;
        base.ReceiveMsg(Request);
      } else if base.curState == Proceeding {
        if lastResponse != [] {
          base.SendMessage(lastResponse[0]);
        }
      } else if base.curState == Completed {
        if lastResponse != [] {
          base.SendMessage(lastResponse[0]);
        }
      }
    }

    method Send1xx(code: int, now: int)
      requires Valid() && code < 200
      modifies this, base, base.ua
      ensures View() == OnServerNonInvite(old(View()), now, ReplyEvent(code))
      ensures Valid()
    {
      ServerKeeps(ServerNonInvite, View(), now, ReplyEvent(code));
      hide ServerOk;
      if base.curState == Trying || base.curState == Proceeding {
        base.curState := Proceeding;
        lastResponse := [Response(code)];
        base.SendMessage(lastResponse[0]);
      }
    }

    method Send2xx6xx(code: int, now: int)
      requires Valid() && 200 <= code
      modifies this, base, base.ua
      ensures View() == OnServerNonInvite(old(View()), now, ReplyEvent(code))
      ensures Valid()
    {
      ServerKeeps(ServerNonInvite, View(), now, ReplyEvent(code));
      hide ServerOk;
      if base.curState == Trying || base.curState == Proceeding {
        base.curState := Completed;
        lastResponse := [Response(code)];
        base.SendMessage(lastResponse[0]);
        base.StartTimer(J, T1 * 64, now);
      }
    }

    method TransportError(now: int)
      requires Valid()
      modifies this, base, base.ua
      ensures View() == OnServerNonInvite(old(View()), now, ErrorEvent)
      ensures Valid()
    {
      ServerKeeps(ServerNonInvite, View(), now, ErrorEvent);
      hide ServerOk;
      if base.curState == Proceeding {
        Clear();
      } else if base.curState == Completed {
        base.ua.StopTimer(J);
        Clear();
      }
    }

    method TimerJExpired(now: int)
      requires Valid() && J in base.ua.due && base.ua.due[J] <= now
      modifies this, base, base.ua
      ensures View() == OnServerNonInvite(old(View()), now, ExpireEvent(J))
      ensures Valid()
    {
      ServerKeeps(ServerNonInvite, View(), now, ExpireEvent(J));
      hide ServerOk;
      base.ua.StopTimer(J);
      if base.curState == Completed {
        Clear();
      }
    }
  }
}
