/**
 The stock stream: one socket or one pending reconnect while it runs, neither once it is stopped, deaf to
 superseded sockets; and a server whose subscriptions follow the wanted symbols as long as sends succeed.
 */
module StockStream {
  import opened Options
  import opened Numbers
  import opened Sequences

  type SocketId = nat
  type TimerId = nat
  type Symbol = nat

  /** What a connection attempt meets. */
  datatype Connecting = CredentialsMissing | FactoryThrows | Opened

  datatype Message = Authenticated | SubscriptionConfirmed | ServerError | MarketData

  datatype Action = Subscribe | Unsubscribe

  datatype Channels = Channels(trades: set<Symbol>, quotes: set<Symbol>, bars: set<Symbol>)

  const NOTHING := Channels({}, {}, {})

  datatype Config = Config(enabled: bool, trades: bool, quotes: bool, bars: bool, reconnectMs: nat, reconnectMaxMs: nat)

  function Listed(on: bool, symbols: set<Symbol>): set<Symbol> {
    if on then symbols else {}
  }

  /** The channels the configuration asks for on some symbols. */
  function ChannelsFor(config: Config, symbols: set<Symbol>): Channels {
    Channels(Listed(config.trades, symbols), Listed(config.quotes, symbols), Listed(config.bars, symbols))
  }

  /** On each channel that is configured exactly the symbols, on the others none. */
  lemma ChannelsAre(config: Config, symbols: set<Symbol>, s: Symbol)
    ensures var channels := ChannelsFor(config, symbols);
            && (s in channels.trades <==> config.trades && s in symbols)
            && (s in channels.quotes <==> config.quotes && s in symbols)
            && (s in channels.bars <==> config.bars && s in symbols)
  {
  }

  function Apply(server: Channels, action: Action, list: Channels): Channels {
    match action
    case Subscribe => Channels(server.trades + list.trades, server.quotes + list.quotes, server.bars + list.bars)
    case Unsubscribe => Channels(server.trades - list.trades, server.quotes - list.quotes, server.bars - list.bars)
  }

  /** First occurrences only. */
  method Deduplicated(symbols: seq<Symbol>) returns (result: seq<Symbol>)
    ensures Distinct(result) && Elements(result) == Elements(symbols)
  {
    result := [];
    for n := 0 to |symbols|
      invariant Distinct(result) && Elements(result) == Elements(symbols[..n])
    {
      assert symbols[..n + 1] == symbols[..n] + [symbols[n]];
      ElementsAppend(symbols[..n], symbols[n]);
      ElementsAppend(result, symbols[n]);
      if symbols[n] !in result {
        result := result + [symbols[n]];
      } else {
        assert symbols[n] in Elements(result);
      }
    }
    assert symbols[..|symbols|] == symbols;
  }

  method Difference(symbols: seq<Symbol>, others: set<Symbol>) returns (result: seq<Symbol>)
    ensures Elements(result) == Elements(symbols) - others
  {
    result := [];
    for n := 0 to |symbols|
      invariant Elements(result) == Elements(symbols[..n]) - others
    {
      assert symbols[..n + 1] == symbols[..n] + [symbols[n]];
      ElementsAppend(symbols[..n], symbols[n]);
      ElementsAppend(result, symbols[n]);
      if symbols[n] !in others {
        result := result + [symbols[n]];
      }
    }
    assert symbols[..|symbols|] == symbols;
  }

  class Stream {
    const config: Config
    var symbols: seq<Symbol>
    var socket: Option<SocketId>
    var timer: Option<TimerId>
    var running: bool
    var intentionalStop: bool
    var connected: bool
    var authenticated: bool
    var subscribed: bool
    var attempts: nat
    var nextSocket: SocketId
    var nextTimer: TimerId
    /** The subscriptions the server keeps for the current socket. */
    ghost var server: Channels
    /** Every send on the current socket succeeded. */
    ghost var allSent: bool

    ghost predicate Valid()
      reads this
    {
      && (running ==> config.enabled && !intentionalStop && (socket.Some? <==> timer.None?))
      && (!running ==> socket.None? && timer.None?)
      && (socket.Some? ==> socket.value < nextSocket) && (timer.Some? ==> timer.value < nextTimer)
      && (authenticated ==> socket.Some?)
      && (!authenticated && socket.Some? ==> server == NOTHING)
      && (authenticated && allSent ==> server == ChannelsFor(config, Elements(symbols)))
      && Distinct(symbols)
    }

    constructor (config: Config, requested: seq<Symbol>)
      ensures Valid() && !running && this.config == config && Elements(symbols) == Elements(requested)
    {
      this.config := config;
      running, intentionalStop, connected, authenticated, subscribed := false, false, false, false, false;
      socket, timer, attempts, nextSocket, nextTimer := None, None, 0, 0, 0;
      server, allSent := NOTHING, true;
      var unique := Deduplicated(requested);
      symbols := unique;
    }

    // ------------------------------------------------------------------------------ start and stop

    method Start(attempt: Connecting)
      requires Valid()
      modifies this
      ensures Valid() && running == config.enabled && symbols == old(symbols)
      ensures old(running) ==> socket == old(socket) && timer == old(timer) && server == old(server)
      ensures !old(running) && running ==> (socket.Some? <==> attempt.Opened?) && (timer.Some? <==> !attempt.Opened?)
    {
      if running {
        return;
      }
      running, intentionalStop := true, false;
      if !config.enabled {
        running := false;
        return;
      }
      Connect(attempt);
    }

    method Stop()
      requires Valid()
      modifies this
      ensures Valid() && !running && socket.None? && timer.None? && symbols == old(symbols)
    {
      running, intentionalStop := false, true;
      timer := None;
      socket, connected, authenticated, subscribed := None, false, false, false;
    }

    /** A running stream with neither socket nor timer gets one of them. */
    method Connect(attempt: Connecting)
      requires running && config.enabled && !intentionalStop && timer.None? && Distinct(symbols)
      requires socket.None? && !authenticated
      modifies this`socket, this`timer, this`attempts, this`nextSocket, this`nextTimer, this`server, this`allSent
      ensures (socket.Some? <==> attempt.Opened?) && (timer.Some? <==> !attempt.Opened?)
      ensures timer.Some? ==> timer.value >= old(nextTimer)
      ensures old(nextTimer) <= nextTimer && old(nextSocket) <= nextSocket
      ensures Valid()
    {
      if attempt.CredentialsMissing? || attempt.FactoryThrows? {
        var delay := ScheduleReconnect();
        return;
      }
      socket, nextSocket := Some(nextSocket), nextSocket + 1;
      server, allSent := NOTHING, true;
    }

    /** A second timer is never set; delays double up to the maximum. */
    method ScheduleReconnect() returns (delay: Option<nat>)
      modifies this`timer, this`attempts, this`nextTimer
      ensures delay.Some? <==> old(running && !intentionalStop && timer.None?)
      ensures delay.None? ==> timer == old(timer) && attempts == old(attempts) && nextTimer == old(nextTimer)
      ensures delay.Some? ==>
                && timer == Some(old(nextTimer)) && nextTimer == old(nextTimer) + 1 && attempts == old(attempts) + 1
                && delay.value == AtMost(config.reconnectMaxMs,
                                         config.reconnectMs * PowerOfTwo(AtMost(attempts - 1, 30)))
    {
      if !running || intentionalStop || timer.Some? {
        return None;
      }
      attempts := attempts + 1;
      delay := Some(AtMost(config.reconnectMaxMs, config.reconnectMs * PowerOfTwo(AtMost(attempts - 1, 30))));
      timer, nextTimer := Some(nextTimer), nextTimer + 1;
    }

    /** The pending reconnect fires; a cancelled one does not. */
    method FireTimer(attempt: Connecting)
      requires Valid() && timer.Some?
      modifies this
      ensures Valid() && running && symbols == old(symbols)
      ensures (socket.Some? <==> attempt.Opened?) && (timer.Some? <==> !attempt.Opened?)
      ensures timer.Some? ==> timer != old(timer)
    {
      timer := None;
      Connect(attempt);
    }

    // --------------------------------------------------------------------------- socket callbacks

    /**
     The WebSocket library opens a socket before it delivers any of the socket's messages, so the current one
     is not yet authenticated when it opens.
     */
    method OnOpen(s: SocketId)
      requires Valid() && (socket == Some(s) ==> !authenticated)
      modifies this
      ensures socket != Some(s) || !running ==> unchanged(this)
      ensures Valid() && socket == old(socket) && timer == old(timer) && running == old(running)
      ensures symbols == old(symbols) && server == old(server) && allSent == old(allSent)
      ensures socket == Some(s) ==> connected && !authenticated && !subscribed
    {
      if socket != Some(s) || !running || intentionalStop {
        return;
      }
      connected, authenticated, subscribed := true, false, false;
    }

    /** Sends one subscription change; a send that fails leaves the server as it is. */
    method SendSubscription(action: Action, list: seq<Symbol>, sent: bool) returns (ok: bool)
      modifies this`server, this`allSent
      ensures ok == (socket.Some? && sent)
      ensures server == if ok then Apply(old(server), action, ChannelsFor(config, Elements(list))) else old(server)
      ensures allSent == (old(allSent) && ok)
    {
      ok := socket.Some? && sent;
      if ok {
        server := Apply(server, action, ChannelsFor(config, Elements(list)));
      } else {
        allSent := false;
      }
    }

    method OnMessage(s: SocketId, message: Message, sent: bool)
      requires Valid()
      modifies this
      ensures socket != Some(s) ==> unchanged(this)
      ensures Valid() && socket == old(socket) && timer == old(timer) && running == old(running)
              && symbols == old(symbols)
      ensures socket == Some(s) && message.Authenticated? ==>
                authenticated && attempts == 0 && subscribed == sent && allSent == (old(allSent) && sent)
      ensures socket == Some(s) && !message.Authenticated? ==>
                authenticated == old(authenticated) && server == old(server) && allSent == old(allSent)
    {
      if socket != Some(s) {
        return;
      }
      if message.Authenticated? {
        authenticated, attempts := true, 0;
        ghost var before := server;
        subscribed := SendSubscription(Subscribe, symbols, sent);
        assert subscribed && (before == NOTHING || before == ChannelsFor(config, Elements(symbols)))
          ==> server == ChannelsFor(config, Elements(symbols));
      } else if message.SubscriptionConfirmed? {
        subscribed := true;
      }
    }

    method OnError(s: SocketId)
      requires Valid()
      modifies this
      ensures socket != Some(s) && old(socket) != Some(s) ==> unchanged(this)
      ensures Valid() && running == old(running) && symbols == old(symbols)
      ensures old(socket) == Some(s) ==> socket.None? && timer.Some?
    {
      if socket != Some(s) {
        return;
      }
      OnClose(s);
    }

    method OnClose(s: SocketId)
      requires Valid()
      modifies this
      ensures old(socket) != Some(s) ==> unchanged(this)
      ensures Valid() && running == old(running) && symbols == old(symbols)
      ensures old(socket) == Some(s) ==> socket.None? && timer.Some?
    {
      if socket != Some(s) {
        return;
      }
      socket, connected, authenticated, subscribed := None, false, false, false;
      if running && !intentionalStop {
        var delay := ScheduleReconnect();
      }
    }

    // ------------------------------------------------------------------------------------- symbols

    /** The new symbols replace the old; an authenticated socket is told the differences. */
    method SetSymbols(requested: seq<Symbol>, addedSent: bool, removedSent: bool)
      requires Valid()
      modifies this
      ensures Valid() && Elements(symbols) == Elements(requested)
      ensures socket == old(socket) && timer == old(timer) && running == old(running)
              && authenticated == old(authenticated)
      ensures old(allSent) && addedSent && removedSent ==> allSent
    {
      var next := Deduplicated(requested);
      var previous := Elements(symbols);
      var added := Difference(next, previous);
      var removed := Difference(symbols, Elements(next));
      ghost var before := server;
      symbols := next;
      if socket.Some? && authenticated {
        if |added| > 0 {
          var ok := SendSubscription(Subscribe, added, addedSent);
        }
        if |removed| > 0 {
          var ok := SendSubscription(Unsubscribe, removed, removedSent);
        }
      }
      DifferencesSuffice(config, before, previous, Elements(next), Elements(added), Elements(removed));
      assert added == [] ==> Elements(added) == {};
      assert removed == [] ==> Elements(removed) == {};
    }
  }

  /** Adding what is new and removing what is gone turns the old subscriptions into the new ones. */
  lemma DifferencesSuffice(config: Config, server: Channels, previous: set<Symbol>, next: set<Symbol>,
                           added: set<Symbol>, removed: set<Symbol>)
    requires added == next - previous && removed == previous - next
    ensures server == ChannelsFor(config, previous) ==>
              Apply(Apply(server, Subscribe, ChannelsFor(config, added)), Unsubscribe, ChannelsFor(config, removed))
              == ChannelsFor(config, next)
    ensures added == {} ==> Apply(server, Subscribe, ChannelsFor(config, added)) == server
    ensures removed == {} ==> Apply(server, Unsubscribe, ChannelsFor(config, removed)) == server
  {
    var after := Apply(Apply(ChannelsFor(config, previous), Subscribe, ChannelsFor(config, added)), Unsubscribe,
                       ChannelsFor(config, removed));
    assert after.trades == Listed(config.trades, next);
    assert after.quotes == Listed(config.quotes, next);
    assert after.bars == Listed(config.bars, next);
  }
}
