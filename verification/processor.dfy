/** `processor.Processor`: the fixed registry from event kind to handler
    and `ProcessEvent`, which dispatches through it. */
module Processors {
  import opened Wrappers
  import opened Competitors
  import opened EventModel
  import opened Configs
  import H = Handlers

  /** The handlers `initHandlers` can bind. */
  datatype Handler =
    | Register | SetStartTime | SetOnStartLine | Start | SetOnFiringRange | Hit
    | LeftFiringRange | EnterPenaltyLaps | LeftPenaltyLaps | EndMainLap
    | CantContinue | Disqualify | Finish

  datatype Processor = Processor(config: Config)

  /** `processor.New(cfg)`. */
  function New(cfg: Config): Processor {
    Processor(cfg)
  }

  /** The table `initHandlers` builds. */
  function Registry(): (r: map<int, Handler>)
    ensures forall k :: k in r <==> 1 <= k <= 11 || k == 32 || k == 33
    ensures 34 !in r
  {
    map[1 := Register, 2 := SetStartTime, 3 := SetOnStartLine, 4 := Start,
        5 := SetOnFiringRange, 6 := Hit, 7 := LeftFiringRange, 8 := EnterPenaltyLaps,
        9 := LeftPenaltyLaps, 10 := EndMainLap, 11 := Handler.CantContinue,
        32 := Disqualify, 33 := Finish]
  }

  /** The fields each handler may write. */
  function Footprint(h: Handler): set<Field> {
    match h
    case Register => {Field.Registered, StartTime}
    case SetStartTime => {StartedAt}
    case SetOnStartLine => {OnStartLine}
    case Start => {OnStartLine, CurrentLap}
    case SetOnFiringRange => {OnFiringRange, FiringRangeNum}
    case Hit => {Shots, Hits}
    case LeftFiringRange => {OnFiringRange}
    case EnterPenaltyLaps => {OnPenaltyLap, PenaltyEnterTime}
    case LeftPenaltyLaps => {OnPenaltyLap}
    case EndMainLap => {CurrentLap, LastEventTime, Finished}
    case CantContinue => {Field.CantContinue}
    case Disqualify => {}
    case Finish => {}
  }

  /** Runs handler `h`; it writes only the fields of its footprint. */
  function Apply(h: Handler, cfg: Config, c: Competitor, e: Event): (s: H.Step)
    ensures AgreeOutside(c, s.comp, Footprint(h))
  {
    match h
    case Register => H.Register(cfg, c, e)
    case SetStartTime => H.SetStartTime(cfg, c, e)
    case SetOnStartLine => H.SetOnStartLine(cfg, c, e)
    case Start => H.Start(cfg, c, e)
    case SetOnFiringRange => H.SetOnFiringRange(cfg, c, e)
    case Hit => H.Hit(cfg, c, e)
    case LeftFiringRange => H.LeftFiringRange(cfg, c, e)
    case EnterPenaltyLaps => H.EnterPenaltyLaps(cfg, c, e)
    case LeftPenaltyLaps => H.LeftPenaltyLaps(cfg, c, e)
    case EndMainLap => H.EndMainLap(cfg, c, e)
    case CantContinue => H.CantContinue(cfg, c, e)
    case Disqualify => H.Disqualify(cfg, c, e)
    case Finish => H.Finish(cfg, c, e)
  }

  /** `p.ProcessEvent(comp, event)`. A kind outside the registry makes Go
      call a nil function value and panic; that outcome is `None`. Failed
      transitions carry neither a message nor a derived event, and only
      kinds 10 and 11 derive one: a kind-33 or kind-34 event at the same
      time and about the same competitor. */
  function ProcessEvent(p: Processor, c: Competitor, e: Event): (r: Option<H.Step>)
    ensures r.Some? <==> e.kind in Registry()
    ensures r.Some? ==> AgreeOutside(c, r.value.comp, Footprint(Registry()[e.kind]))
    ensures r.Some? && r.value.result.err.Some? ==>
      r.value.result.msg == Silent && r.value.result.outgoing.None?
    ensures r.Some? && r.value.result.outgoing.Some? ==>
      var d := r.value.result.outgoing.value;
      && (e.kind == 10 || e.kind == 11)
      && d.kind == (if e.kind == 10 then 33 else 34)
      && d.timeStamp == e.timeStamp && d.target == e.target
      && (e.kind == 11 ==> d.extraParam == e.extraParam)
  {
    if e.kind in Registry() then Some(Apply(Registry()[e.kind], p.config, c, e)) else None
  }
}
