/**
 * What a run of the scan loop promises, proved once about the specification
 * functions `ScanFrom` and `AtEvent` of an `XmlStreamFilter`:
 *  - every match sits on a target start and records exactly what the
 *    materializer, the filter and the transformer produced for it;
 *  - matches follow document order and never overlap;
 *  - the output is the in-order concatenation of the accepted matches' bytes;
 *  - every target start before the point of failure is processed, either as a
 *    match of its own or inside the region of an enclosing match;
 *  - a run fails only on an ill-formed event or on a capability throwing at a
 *    target start, so it completes when neither happens; and a run that
 *    completes read no ill-formed event.
 */
module ScanProperties {
  import opened Wrappers
  import opened Xml
  import opened XmlStreamFilters

  /**
   * `m` is a target start at which the capabilities of `f` produced exactly
   * what `m` records, the materializer having moved the cursor forward.
   */
  ghost predicate MatchAgrees(f: XmlStreamFilter, events: seq<Event>, m: Match)
  {
    && m.position < m.end < |events|
    && IsStartOfTargetElement(events[m.position], f.elementLocalName)
    && f.domTreeTransformer(events, m.position) == Some(Materialized(m.tree, m.end))
    && f.filter(m.tree) == Some(m.accepted)
    && (if m.accepted then f.transformer(m.tree) == Some(m.emitted) else m.emitted == [])
  }

  ghost predicate MatchesAgree(f: XmlStreamFilter, events: seq<Event>, ms: seq<Match>)
  {
    forall i | 0 <= i < |ms| :: MatchAgrees(f, events, ms[i])
  }

  /** The matches lie in `[lo, n)`, each consumes a non-empty region, and each starts where or after the previous one ended. */
  ghost predicate InDocumentOrder(ms: seq<Match>, lo: nat, n: nat)
  {
    && (forall i | 0 <= i < |ms| :: lo <= ms[i].position < ms[i].end < n)
    && (forall i, j | 0 <= i < j < |ms| :: ms[i].end <= ms[j].position)
  }

  /** The bytes the transformer wrote for the accepted matches, in order. */
  function Emitted(ms: seq<Match>): seq<byte>
  {
    if ms == [] then []
    else if ms[0].accepted then ms[0].emitted + Emitted(ms[1..])
    else Emitted(ms[1..])
  }

  /** Position `q` was handled by a match: it is that match's start or lies inside its consumed region. */
  ghost predicate Accounted(ms: seq<Match>, q: nat)
  {
    exists i | 0 <= i < |ms| :: ms[i].position <= q < ms[i].end
  }

  /** Where processing stopped: the failing position, or the end of the document. */
  function Reach(s: Scan, n: nat): nat
  {
    if s.failure.Some? then s.failure.value.position else n
  }

  /** Every target start in `[lo, hi)` was handled by one of `ms`. */
  ghost predicate Complete(f: XmlStreamFilter, events: seq<Event>, lo: nat, hi: nat, ms: seq<Match>)
  {
    forall q: nat | lo <= q < hi && q < |events| && IsStartOfTargetElement(events[q], f.elementLocalName) ::
      Accounted(ms, q)
  }

  /**
   * The capability `origin` of `f` throws when the target start at `p` is
   * handled: the materializer itself, the filter on the materialized tree,
   * or the transformer on a tree the filter accepted.
   */
  ghost predicate Threw(f: XmlStreamFilter, events: seq<Event>, p: nat, origin: Capability)
  {
    var r := f.domTreeTransformer(events, p);
    match origin
    case DomTreeTransformer => r.None?
    case Filter => r.Some? && f.filter(r.value.tree).None?
    case Transformer => r.Some? && f.filter(r.value.tree) == Some(true) && f.transformer(r.value.tree).None?
  }

  /**
   * A failure happened at or after `lo`, after every match, and has one of
   * the two possible causes: an ill-formed event, or a capability that threw
   * at a target start.
   */
  ghost predicate FailureExplained(f: XmlStreamFilter, events: seq<Event>, lo: nat, s: Scan)
  {
    s.failure.Some? ==>
      var a := s.failure.value;
      && lo <= a.position < |events|
      && (forall i | 0 <= i < |s.matches| :: s.matches[i].end <= a.position)
      && ((a.error == XMLStreamException && events[a.position].Malformed?)
          || (&& a.error.RuntimeException?
              && IsStartOfTargetElement(events[a.position], f.elementLocalName)
              && Threw(f, events, a.position, a.error.origin)))
  }

  /** No capability of `f` throws at any target start of `events`. */
  ghost predicate NeverThrows(f: XmlStreamFilter, events: seq<Event>)
  {
    forall p: nat | p < |events| && IsStartOfTargetElement(events[p], f.elementLocalName) ::
      && !Threw(f, events, p, Capability.DomTreeTransformer)
      && !Threw(f, events, p, Capability.Filter)
      && !Threw(f, events, p, Capability.Transformer)
  }

  /** No event in `[lo, hi)` is ill-formed. */
  ghost predicate WellFormed(events: seq<Event>, lo: nat, hi: nat)
  {
    forall k | lo <= k < hi && k < |events| :: !events[k].Malformed?
  }

  /** Everything the scan promises about a run `s` that started at `lo`. */
  ghost predicate Explains(f: XmlStreamFilter, events: seq<Event>, lo: nat, s: Scan)
  {
    && MatchesAgree(f, events, s.matches)
    && WellFormed(events, lo, Reach(s, |events|))
    && InDocumentOrder(s.matches, lo, |events|)
    && s.output == Emitted(s.matches)
    && FailureExplained(f, events, lo, s)
    && Complete(f, events, lo, Reach(s, |events|), s.matches)
  }

  /** Handling one more match in front of a run keeps every promise. */
  lemma ThenExplained(f: XmlStreamFilter, events: seq<Event>, m: Match, rest: Scan)
    requires MatchAgrees(f, events, m) && WellFormed(events, m.position, m.end)
    requires Explains(f, events, m.end, rest)
    ensures Explains(f, events, m.position, Then(m, rest))
  {
    var s := Then(m, rest);
    assert s.matches[0] == m && s.matches[1..] == rest.matches;
    ThenAgrees(f, events, m, rest.matches);
    ThenInOrder(m, rest.matches, |events|);
    ThenComplete(f, events, m, rest.matches, Reach(rest, |events|));
    ThenWellFormed(events, m.position, m.end, Reach(rest, |events|));
  }

  /** A step of `ThenExplained`: two well-formed stretches that meet make one. */
  lemma ThenWellFormed(events: seq<Event>, lo: nat, mid: nat, hi: nat)
    requires WellFormed(events, lo, mid) && WellFormed(events, mid, hi)
    ensures WellFormed(events, lo, hi)
  {
  }

  /** A step of `ThenExplained`, stated apart only to keep that proof small. */
  lemma ThenAgrees(f: XmlStreamFilter, events: seq<Event>, m: Match, ms: seq<Match>)
    requires MatchAgrees(f, events, m) && MatchesAgree(f, events, ms)
    ensures MatchesAgree(f, events, [m] + ms)
  {
  }

  /** A step of `ThenExplained`, stated apart only to keep that proof small. */
  lemma ThenInOrder(m: Match, ms: seq<Match>, n: nat)
    requires m.position < m.end < n && InDocumentOrder(ms, m.end, n)
    ensures InDocumentOrder([m] + ms, m.position, n)
  {
  }

  lemma ThenComplete(f: XmlStreamFilter, events: seq<Event>, m: Match, ms: seq<Match>, hi: nat)
    requires m.position < m.end && Complete(f, events, m.end, hi, ms)
    ensures Complete(f, events, m.position, hi, [m] + ms)
  {
    var t := [m] + ms;
    forall q: nat | m.position <= q < hi && q < |events| && IsStartOfTargetElement(events[q], f.elementLocalName)
      ensures Accounted(t, q)
    {
      if q < m.end {
        assert t[0].position <= q < t[0].end;
      } else {
        assert Accounted(ms, q);
        var i :| 0 <= i < |ms| && ms[i].position <= q < ms[i].end;
        assert t[i + 1] == ms[i];
      }
    }
  }

  lemma {:induction false} ScanFromExplained(f: XmlStreamFilter, events: seq<Event>, pos: nat)
    requires pos < |events| && MaterializerAdvances(f, events)
    ensures Explains(f, events, pos + 1, ScanFrom(f, events, pos))
    decreases |events| - pos, 0
  {
    if pos + 1 < |events| && !events[pos + 1].Malformed? {
      AtEventExplained(f, events, pos + 1);
    }
  }

  lemma {:induction false} AtEventExplained(f: XmlStreamFilter, events: seq<Event>, pos: nat)
    requires pos < |events| && MaterializerAdvances(f, events) && !events[pos].Malformed?
    ensures Explains(f, events, pos, AtEvent(f, events, pos))
    decreases |events| - pos, 1
  {
    if !IsStartOfTargetElement(events[pos], f.elementLocalName) {
      ScanFromExplained(f, events, pos);
    } else {
      match f.domTreeTransformer(events, pos)
      case None =>
      case Some(r) =>
        assert Progresses(f.domTreeTransformer(events, pos), events, pos);
        match f.filter(r.tree)
        case None =>
        case Some(false) =>
          AtEventExplained(f, events, r.next);
          ThenExplained(f, events, Match(pos, r.next, r.tree, false, []), AtEvent(f, events, r.next));
        case Some(true) =>
          match f.transformer(r.tree)
          case None =>
          case Some(bytes) =>
            AtEventExplained(f, events, r.next);
            ThenExplained(f, events, Match(pos, r.next, r.tree, true, bytes), AtEvent(f, events, r.next));
    }
  }

  /*
   * The promises of a whole run, for a document the reader delivers from its
   * start-document event at position 0.
   */

  /**
   * The materializer is invoked only at a start element with the configured
   * local name; each sub-document gets exactly one verdict from the filter,
   * and the transformer's bytes are recorded exactly for the accepted ones.
   */
  lemma MatchesAgreeWithCapabilities(f: XmlStreamFilter, events: seq<Event>)
    requires 0 < |events| && MaterializerAdvances(f, events)
    ensures forall i | 0 <= i < |ScanFrom(f, events, 0).matches| ::
      MatchAgrees(f, events, ScanFrom(f, events, 0).matches[i])
  {
    ScanFromExplained(f, events, 0);
  }

  /** Matches are processed in increasing cursor position, none overlapping the region consumed by another. */
  lemma MatchesInDocumentOrder(f: XmlStreamFilter, events: seq<Event>)
    requires 0 < |events| && MaterializerAdvances(f, events)
    ensures InDocumentOrder(ScanFrom(f, events, 0).matches, 1, |events|)
  {
    ScanFromExplained(f, events, 0);
  }

  /** The output is the in-order concatenation of the transformer's bytes for the accepted matches, and nothing else. */
  lemma OutputIsAcceptedMatchesInOrder(f: XmlStreamFilter, events: seq<Event>)
    requires 0 < |events| && MaterializerAdvances(f, events)
    ensures ScanFrom(f, events, 0).output == Emitted(ScanFrom(f, events, 0).matches)
  {
    ScanFromExplained(f, events, 0);
  }

  /**
   * No target start is missed: each one before the point of failure (or
   * anywhere, on a run that completes) is a match or lies inside the events
   * an earlier match consumed.
   */
  lemma EveryTargetStartIsHandled(f: XmlStreamFilter, events: seq<Event>)
    requires 0 < |events| && MaterializerAdvances(f, events)
    ensures Complete(f, events, 1, Reach(ScanFrom(f, events, 0), |events|), ScanFrom(f, events, 0).matches)
  {
    ScanFromExplained(f, events, 0);
  }

  /**
   * No match starts inside the events another match consumed. So when the
   * materializer consumes an element through its end event, a target element
   * nested inside a matched one goes out with it and is never matched on its
   * own; the engine itself demands only that the materializer progress.
   */
  lemma NestedTargetsAreNotMatchedSeparately(f: XmlStreamFilter, events: seq<Event>)
    requires 0 < |events| && MaterializerAdvances(f, events)
    ensures var ms := ScanFrom(f, events, 0).matches;
      forall i, j | 0 <= i < |ms| && 0 <= j < |ms| :: !(ms[i].position < ms[j].position < ms[i].end)
  {
    MatchesInDocumentOrder(f, events);
  }

  /** A run fails only on an ill-formed event, or on a capability throwing at a target start. */
  lemma FailuresHaveACause(f: XmlStreamFilter, events: seq<Event>)
    requires 0 < |events| && MaterializerAdvances(f, events)
    ensures FailureExplained(f, events, 1, ScanFrom(f, events, 0))
  {
    ScanFromExplained(f, events, 0);
  }

  /**
   * The converse: on a document without ill-formed events, whose target
   * starts no capability throws at, the run completes.
   */
  lemma NoCauseMeansSuccess(f: XmlStreamFilter, events: seq<Event>)
    requires 0 < |events| && MaterializerAdvances(f, events)
    requires forall q | 1 <= q < |events| :: !events[q].Malformed?
    requires NeverThrows(f, events)
    ensures ScanFrom(f, events, 0).failure.None?
  {
    FailuresHaveACause(f, events);
  }

  /**
   * A run that completes read no ill-formed event: every event after the
   * start-document event was well-formed, including those the materializer
   * consumed. Truncated or corrupt input cannot pass unnoticed.
   */
  lemma SuccessMeansWellFormed(f: XmlStreamFilter, events: seq<Event>)
    requires 0 < |events| && MaterializerAdvances(f, events)
    ensures ScanFrom(f, events, 0).failure.None? ==> forall q | 1 <= q < |events| :: !events[q].Malformed?
  {
    ScanFromExplained(f, events, 0);
  }

  /** When no capability throws, a run completes exactly when the document holds no ill-formed event. */
  lemma SucceedsIffWellFormed(f: XmlStreamFilter, events: seq<Event>)
    requires 0 < |events| && MaterializerAdvances(f, events) && NeverThrows(f, events)
    ensures ScanFrom(f, events, 0).failure.None? <==> forall q | 1 <= q < |events| :: !events[q].Malformed?
  {
    SuccessMeansWellFormed(f, events);
    if forall q | 1 <= q < |events| :: !events[q].Malformed? {
      NoCauseMeansSuccess(f, events);
    }
  }

  /**
   * A document without any target start gives no match and no output; its run
   * can only fail on an ill-formed event, so a well-formed one succeeds.
   */
  lemma NoTargetMeansEmptyOutput(f: XmlStreamFilter, events: seq<Event>)
    requires 0 < |events| && MaterializerAdvances(f, events)
    requires forall q | 0 <= q < |events| :: !IsStartOfTargetElement(events[q], f.elementLocalName)
    ensures ScanFrom(f, events, 0).matches == [] && ScanFrom(f, events, 0).output == []
    ensures ScanFrom(f, events, 0).failure.Some? ==> ScanFrom(f, events, 0).failure.value.error == XMLStreamException
    ensures (forall q | 0 <= q < |events| :: !events[q].Malformed?) ==> ScanFrom(f, events, 0).failure.None?
  {
    var s := ScanFrom(f, events, 0);
    ScanFromExplained(f, events, 0);
  }
}
