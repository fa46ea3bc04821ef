/** The loop composed with the adapter: what every request of every run looks like
    to the provider. */
module LoopOnTheWire {
  import opened Transcript
  import opened ToolJournal
  import opened AgentLoop
  import opened LoopAccounting
  import opened AnthropicAdapter
  import opened WireConversation
  import opened WireFilters

  /** A request goes out with every result paired with its tool_use, and, if its calls
      are distinct and the adapter knows nothing else about them, with exactly the
      calls the model issued. */
  ghost predicate GoesOutFaithfully(config: Config, registry: Registry, request: seq<Message>) {
    exists turns: seq<Turn> ::
      && request == Compose(config, Flatten(turns))
      && Carries(Convert(config.parse, registry, request).wire, request)
      && (DistinctCalls(IssuedCalls(turns)) && Faithful(config.parse, registry, IssuedCalls(turns)) ==>
            UsesOnWire(Convert(config.parse, registry, request).wire) == IssuedUses(config.parse, IssuedCalls(turns)))
  }

  lemma RequestGoesOutFaithfully(config: Config, registry: Registry, request: seq<Message>)
    requires AnsweredRequest(config, request)
    ensures GoesOutFaithfully(config, registry, request)
  {
    var turns: seq<Turn> :| request == Compose(config, Flatten(turns))
        && forall turn | turn in turns :: turn.Answered();
    ConversionPairsEveryResult(config.parse, registry, request);
    if DistinctCalls(IssuedCalls(turns)) && Faithful(config.parse, registry, IssuedCalls(turns)) {
      LoopTranscriptReplaysCalls(config.parse, registry, config.prefix, config.task, turns);
    }
  }

  /** Every request any run submits, whatever its environment and however it ends. */
  lemma EveryRequestGoesOutFaithfully(config: Config, journal: Journal, scripts: seq<TurnScript>, registry: Registry)
    ensures forall request | request in Run(config, journal, scripts).0.requests ::
              GoesOutFaithfully(config, registry, request)
  {
    EveryRunAccounts(config, journal, scripts);
    forall request | request in Run(config, journal, scripts).0.requests
      ensures GoesOutFaithfully(config, registry, request)
    {
      RequestGoesOutFaithfully(config, registry, request);
    }
  }
}
