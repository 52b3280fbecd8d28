/**
 The context an agent receives from earlier groups: bounded JSON sections, a digest and
 source excerpts under one budget (backend/assistant_context.py).
 */
module PreviousContext {
  import opened Numbers
  import opened Wrappers
  import opened Texts
  import opened ContextBudget

  // ----- whole-field JSON

  /** A value of a dictionary: a nested dictionary, or anything else as its encoding. */
  datatype Item = Leaf(text: string) | Dict(fields: map<string, string>)
  type Payload = map<string, Item>
  type Encoder = Payload -> string

  const OMITTED := "_context_omitted"
  const OMISSION: Payload := map[OMITTED := Leaf("true")]

  /** Nothing of the item is altered: it is whole, or a dictionary with whole fields of it. */
  ghost predicate PartOf(part: Item, item: Item) {
    || part == item
    || (part.Dict? && item.Dict? && forall f | f in part.fields :: f in item.fields && part.fields[f] == item.fields[f])
  }

  ghost predicate Within(a: Payload, b: Payload) {
    forall k | k in a :: k in b && PartOf(a[k], b[k])
  }

  /** Every encoding is at least a pair of braces, and more entries never make it shorter. */
  ghost predicate SaneEncoder(encode: Encoder) {
    && (forall p :: |encode(p)| >= 2)
    && (forall a, b :: Within(a, b) ==> |encode(a)| <= |encode(b)|)
  }

  function FieldsOf(selected: Payload, key: string): map<string, string> {
    if key in selected && selected[key].Dict? then selected[key].fields else map[]
  }

  function WithField(selected: Payload, key: string, field: string, value: string): Payload {
    selected[key := Dict(FieldsOf(selected, key)[field := value])]
  }

  /** Each entry the result keeps is the omission mark, or unaltered. */
  ghost predicate Honest(kept: Payload, value: Payload) {
    forall k | k in kept :: (k == OMITTED && kept[k] == Leaf("true")) || (k in value && PartOf(kept[k], value[k]))
  }

  /** Of these fields, those not yet taken would not fit. */
  ghost predicate FieldsFull(encode: Encoder, kept: Payload, key: string, fields: map<string, string>,
                             names: set<string>, limit: int) {
    forall f | f in names && f in fields && f !in FieldsOf(kept, key) ::
        |encode(WithField(kept, key, f, fields[f]))| > limit
  }

  /** What is missing of an entry would not fit. */
  ghost predicate FullFor(encode: Encoder, kept: Payload, item: Item, key: string, limit: int) {
    || (key in kept && kept[key] == item)
    || (&& |encode(kept[key := item])| > limit
        && (item.Dict? ==> FieldsFull(encode, kept, key, item.fields, item.fields.Keys, limit)))
  }

  lemma FieldsStayFull(encode: Encoder, before: Payload, after: Payload, key: string, fields: map<string, string>,
                       names: set<string>, limit: int)
    requires SaneEncoder(encode)
    requires forall k | k in before && k != key :: k in after && PartOf(before[k], after[k])
    requires forall f | f in FieldsOf(before, key) ::
               f in FieldsOf(after, key) && FieldsOf(after, key)[f] == FieldsOf(before, key)[f]
    requires FieldsFull(encode, before, key, fields, names, limit)
    ensures FieldsFull(encode, after, key, fields, names, limit)
  {
    forall f | f in names && f in fields && f !in FieldsOf(after, key)
        ensures |encode(WithField(after, key, f, fields[f]))| > limit {
      assert Within(WithField(before, key, f, fields[f]), WithField(after, key, f, fields[f]));
    }
  }

  /** The entry for the key is as before, or some of the fields in its place. */
  ghost predicate FieldsAdded(start: Payload, selected: Payload, key: string, fields: map<string, string>) {
    || selected == start
    || (&& key in selected && selected[key].Dict? && PartOf(selected[key], Dict(fields))
        && selected == start[key := selected[key]])
  }

  lemma OneFieldAdded(start: Payload, selected: Payload, key: string, fields: map<string, string>, field: string)
    requires field in fields && FieldsAdded(start, selected, key, fields)
    requires forall f | f in FieldsOf(selected, key) :: f in fields && FieldsOf(selected, key)[f] == fields[f]
    ensures FieldsAdded(start, WithField(selected, key, field, fields[field]), key, fields)
  {
    var candidate := WithField(selected, key, field, fields[field]);
    assert candidate == start[key := candidate[key]];
  }

  lemma OneFieldSettled(encode: Encoder, before: Payload, after: Payload, key: string, fields: map<string, string>,
                        field: string, names: set<string>, limit: int)
    requires SaneEncoder(encode) && field in fields
    requires forall f | f in FieldsOf(before, key) :: f in fields && FieldsOf(before, key)[f] == fields[f]
    requires || (after == before && |encode(WithField(before, key, field, fields[field]))| > limit)
             || after == WithField(before, key, field, fields[field])
    requires FieldsFull(encode, before, key, fields, names, limit)
    ensures FieldsFull(encode, after, key, fields, names + {field}, limit)
  {
    FieldsStayFull(encode, before, after, key, fields, names, limit);
  }

  /** Adds the whole fields of one nested dictionary that fit, in whatever order it lists them. */
  method AddFields(encode: Encoder, start: Payload, key: string, fields: map<string, string>, limit: int)
    returns (selected: Payload)
    requires FieldsOf(start, key) == map[] && |encode(start)| <= limit
    ensures |encode(selected)| <= limit
    ensures FieldsAdded(start, selected, key, fields)
    ensures SaneEncoder(encode) ==> FieldsFull(encode, selected, key, fields, fields.Keys, limit)
  {
    selected := start;
    var todo := fields.Keys;
    while todo != {}
      invariant todo <= fields.Keys
      invariant |encode(selected)| <= limit
      invariant FieldsAdded(start, selected, key, fields)
      invariant forall f | f in FieldsOf(selected, key) :: f in fields && FieldsOf(selected, key)[f] == fields[f]
      invariant SaneEncoder(encode) ==> FieldsFull(encode, selected, key, fields, fields.Keys - todo, limit)
      decreases todo
    {
      var field :| field in todo;
      var candidate := WithField(selected, key, field, fields[field]);
      ghost var before := selected;
      if |encode(candidate)| <= limit {
        OneFieldAdded(start, selected, key, fields, field);
        selected := candidate;
      }
      if SaneEncoder(encode) {
        OneFieldSettled(encode, before, selected, key, fields, field, fields.Keys - todo, limit);
      }
      assert fields.Keys - (todo - {field}) == fields.Keys - todo + {field};
      todo := todo - {field};
    }
    assert fields.Keys - {} == fields.Keys;
  }

  lemma FullStays(encode: Encoder, before: Payload, after: Payload, item: Item, key: string, limit: int)
    requires SaneEncoder(encode) && Within(before, after)
    requires key in before ==> after[key] == before[key]
    requires key in after ==> key in before
    requires FullFor(encode, before, item, key, limit)
    ensures FullFor(encode, after, item, key, limit)
  {
    if !(key in before && before[key] == item) {
      assert Within(before[key := item], after[key := item]);
      if item.Dict? {
        FieldsStayFull(encode, before, after, key, item.fields, item.fields.Keys, limit);
      }
    }
  }

  /** Every entry of the value outside `todo` is whole, or what is missing of it would not fit. */
  ghost predicate AllFull(encode: Encoder, kept: Payload, value: Payload, todo: set<string>, limit: int) {
    forall k | k in value && k !in todo :: FullFor(encode, kept, value[k], k, limit)
  }

  lemma AllStayFull(encode: Encoder, before: Payload, after: Payload, value: Payload, key: string, todo: set<string>,
                    limit: int)
    requires SaneEncoder(encode) && key in todo && key !in before
    requires AllFull(encode, before, value, todo, limit)
    requires after == before || (key in after && after == before[key := after[key]])
    requires key in value ==> FullFor(encode, after, value[key], key, limit)
    ensures AllFull(encode, after, value, todo - {key}, limit)
  {
    forall k | k in value && k !in todo ensures FullFor(encode, after, value[k], k, limit) {
      FullStays(encode, before, after, value[k], k, limit);
    }
  }

  /** The whole encoding, or that of what fits together with the omission mark, or "{}". */
  ghost predicate FitOf(encode: Encoder, value: Payload, limit: int, json: string) {
    if |encode(value)| <= limit then json == encode(value)
    else if |encode(OMISSION)| > limit then json == "{}"
    else
      exists kept :: && Honest(kept, value) && OMITTED in kept
                     && json == encode(kept) && |json| <= limit
                     && (SaneEncoder(encode) && OMITTED !in value ==> AllFull(encode, kept, value, {}, limit))
  }

  /**
   The whole dictionary if it fits, else what fits of it with an omission mark, else "{}".
   Nothing is ever cut inside an entry or field, the limit is kept whenever it allows a pair
   of braces, and nothing that still fits is left out.
   */
  method BoundedContextJson(encode: Encoder, value: Payload, limit: Option<int>) returns (json: string)
    ensures limit.None? ==> json == encode(value)
    ensures limit.Some? ==> FitOf(encode, value, limit.value, json)
    ensures limit.Some? && limit.value >= 2 ==> |json| <= limit.value
    ensures SaneEncoder(encode) && limit.Some? ==> (|json| <= limit.value <==> limit.value >= 2)
  {
    json := encode(value);
    if limit.None? || |json| <= limit.value {
      return;
    }
    var max := limit.value;
    var selected := OMISSION;
    if |encode(selected)| > max {
      json := "{}";
      return;
    }
    var todo := value.Keys;
    while todo != {}
      invariant todo <= value.Keys
      invariant |encode(selected)| <= max
      invariant OMITTED in selected && Honest(selected, value)
      invariant forall k | k in todo :: FieldsOf(selected, k) == map[] && (k == OMITTED || k !in selected)
      invariant SaneEncoder(encode) && OMITTED !in value ==> AllFull(encode, selected, value, todo, max)
      decreases todo
    {
      var key :| key in todo;
      var item := value[key];
      var candidate := selected[key := item];
      ghost var before := selected;
      if |encode(candidate)| <= max {
        selected := candidate;
      } else if item.Dict? {
        selected := AddFields(encode, selected, key, item.fields, max);
        if SaneEncoder(encode) && selected != before {
          assert Within(candidate, selected[key := item]);
        }
      }
      if SaneEncoder(encode) && OMITTED !in value {
        AllStayFull(encode, before, selected, value, key, todo, max);
      }
      todo := todo - {key};
    }
    json := encode(selected);
    assert Honest(selected, value);
  }

  // ----- the whole section

  const BLIND_TEXT := "（盲測模式：本 Agent 僅使用原始財務資料、工具結果與自身檢索資料，不引用前序 Agent 分析。）"
  const NO_PREVIOUS := "（無前序分析）"
  const BUDGET_TOO_SMALL := "（前序 context 預算不足）"
  const SOURCE_TITLE := "【前序分析精選片段（非全文，依下一位 Agent 任務檢索）】"
  const DIGEST_HEADER := "【提煉 Agent 結構化摘要】\n"
  const STALE_DIGEST := "（摘要版本未驗證或已過期，請使用下列來源。）"
  const STRUCTURED_HEADER := "【已解析結構化輸出】\n"

  /** The analysis of one upstream agent, split and scored for the reader. */
  datatype Source = Source(header: string, chunks: seq<string>, score: Score, textLength: nat)

  /** The stored digest of the reader: none, one that is not fresh, or a fresh one. */
  datatype DigestSlot = NoDigest | NotFresh | Fresh(payload: Payload)

  /** Structured outputs or a digest claim two fifths of the budget. */
  function SourceLimit(maxTotal: nat, reserve: bool): nat {
    if reserve then maxTotal * 3 / 5 else maxTotal
  }

  /** The characters one source may take when `left` sources are still to come, itself included. */
  function PerSource(source: Source, left: nat, parts: seq<string>, limit: int, perAgent: int): int
    requires left >= 1
  {
    Min(perAgent, (limit - |Join(parts)| - 2) / left - |source.header|)
  }

  /** The excerpt of a source for a share. */
  type Selector = (Source, int) -> string

  function Select(agent: nat): Selector {
    (source: Source, perSource: int) => Selected(source.chunks, source.score, source.textLength, agent, perSource)
  }

  function WithExcerpt(select: Selector, parts: seq<string>, source: Source, perSource: int): seq<string> {
    var snippet := select(source, perSource);
    if snippet != "" then parts + [source.header + snippet] else parts
  }

  function SourceParts(select: Selector, sources: seq<Source>, index: nat, parts: seq<string>, limit: int,
                       perAgent: int): seq<string>
    decreases |sources| - index
  {
    if index >= |sources| then parts
    else
      var perSource := PerSource(sources[index], |sources| - index, parts, limit, perAgent);
      if perSource <= 0 then parts
      else SourceParts(select, sources, index + 1, WithExcerpt(select, parts, sources[index], perSource), limit,
          perAgent)
  }

  function SourceText(sources: seq<Source>, limit: int, perAgent: int, agent: nat): string {
    Join(SourceParts(Select(agent), sources, 0, [SOURCE_TITLE], limit, perAgent))
  }

  method CollectSources(sources: seq<Source>, limit: int, perAgent: int, agent: nat) returns (text: string)
    ensures text == SourceText(sources, limit, perAgent, agent)
  {
    var parts, index := [SOURCE_TITLE], 0;
    while index < |sources|
      invariant 0 <= index <= |sources|
      invariant SourceParts(Select(agent), sources, index, parts, limit, perAgent) ==
                SourceParts(Select(agent), sources, 0, [SOURCE_TITLE], limit, perAgent)
    {
      var source := sources[index];
      var perSource := PerSource(source, |sources| - index, parts, limit, perAgent);
      if perSource <= 0 {
        break;
      }
      var snippet := SelectRelevantContext(source.chunks, source.score, source.textLength, agent, perSource);
      assert snippet == Select(agent)(source, perSource);
      if snippet != "" {
        parts := parts + [source.header + snippet];
      }
      index := index + 1;
    }
    text := Join(parts);
  }

  /** Three fifths of the budget, rounded down, if other sections claim the rest; else all of it. */
  lemma SourceLimitIs(maxTotal: nat)
    ensures SourceLimit(maxTotal, false) == maxTotal
    ensures 5 * SourceLimit(maxTotal, true) <= 3 * maxTotal < 5 * (SourceLimit(maxTotal, true) + 1)
  {
  }

  /** A share is the largest that the cap allows and that all sources still to come, headers included, could take. */
  lemma ShareIsLargest(source: Source, left: nat, parts: seq<string>, limit: int, perAgent: int, share: int)
    requires left >= 1
    ensures share <= PerSource(source, left, parts, limit, perAgent) <==>
            share <= perAgent && left * (share + |source.header|) <= limit - |Join(parts)| - 2
  {
    LargestQuotient(limit - |Join(parts)| - 2, left, share + |source.header|);
  }

  lemma LargestQuotient(n: int, d: nat, q: int)
    requires d >= 1
    ensures q <= n / d <==> d * q <= n
  {
    var r := n / d;
    assert d * r <= n < d * r + d;
    ProductMonotone(d, q, r);
    ProductMonotone(d, r + 1, q);
    assert d * (r + 1) == d * r + d;
  }

  lemma ProductMonotone(d: nat, a: int, b: int)
    requires d >= 1
    ensures a <= b ==> d * a <= d * b
  {
    if a <= b {
      assert d * (b - a) >= 0;
    }
  }

  /** The parts after each of the n sources that are visited, and the shares these get. */
  ghost predicate Visits(select: Selector, sources: seq<Source>, limit: int, perAgent: int, n: nat,
                         texts: seq<seq<string>>) {
    && n <= |sources| && |texts| == n + 1 && texts[0] == ["【前序分析精選片段（非全文，依下一位 Agent 任務檢索）】"]
    && forall k | 0 <= k < n ::
         var share := PerSource(sources[k], |sources| - k, texts[k], limit, perAgent);
         && share > 0
         && texts[k + 1] == texts[k] + if select(sources[k], share) == "" then []
                                       else [sources[k].header + select(sources[k], share)]
  }

  /**
   The sources are visited in order, each with the share it has at that point; whatever the
   selector answers goes under the source's header; and only a share of nothing ends the visits.
   */
  lemma SourcesFollow(sources: seq<Source>, limit: int, perAgent: int, agent: nat)
    returns (n: nat, texts: seq<seq<string>>)
    ensures Visits(Select(agent), sources, limit, perAgent, n, texts)
    ensures n < |sources| ==> PerSource(sources[n], |sources| - n, texts[n], limit, perAgent) <= 0
    ensures SourceText(sources, limit, perAgent, agent) == Join(texts[n])
  {
    n, texts := 0, [[SOURCE_TITLE]];
    while n < |sources| && PerSource(sources[n], |sources| - n, texts[n], limit, perAgent) > 0
      invariant Visits(Select(agent), sources, limit, perAgent, n, texts)
      invariant SourceParts(Select(agent), sources, 0, [SOURCE_TITLE], limit, perAgent) ==
                SourceParts(Select(agent), sources, n, texts[n], limit, perAgent)
    {
      var share := PerSource(sources[n], |sources| - n, texts[n], limit, perAgent);
      VisitNext(Select(agent), sources, limit, perAgent, n, texts);
      texts := texts + [WithExcerpt(Select(agent), texts[n], sources[n], share)];
      n := n + 1;
    }
  }

  lemma VisitNext(select: Selector, sources: seq<Source>, limit: int, perAgent: int, n: nat,
                  texts: seq<seq<string>>)
    requires n < |sources| && Visits(select, sources, limit, perAgent, n, texts)
    requires PerSource(sources[n], |sources| - n, texts[n], limit, perAgent) > 0
    ensures var next := WithExcerpt(select, texts[n], sources[n],
                                    PerSource(sources[n], |sources| - n, texts[n], limit, perAgent));
            Visits(select, sources, limit, perAgent, n + 1, texts + [next])
  {
  }

  lemma {:induction false} SourcePartsBound(sources: seq<Source>, index: nat, parts: seq<string>, limit: int,
                                            perAgent: int, agent: nat)
    requires parts != [] && |Join(parts)| <= Max(|SOURCE_TITLE|, limit + 9)
    ensures |Join(SourceParts(Select(agent), sources, index, parts, limit, perAgent))| <= Max(|SOURCE_TITLE|, limit + 9)
    decreases |sources| - index
  {
    if index < |sources| {
      var source := sources[index];
      var perSource := PerSource(source, |sources| - index, parts, limit, perAgent);
      if perSource > 0 {
        ExcerptBound(parts, source, |sources| - index, limit, perAgent, agent);
        SourcePartsBound(sources, index + 1, WithExcerpt(Select(agent), parts, source, perSource), limit, perAgent,
            agent);
      }
    }
  }

  lemma ExcerptBound(parts: seq<string>, source: Source, left: nat, limit: int, perAgent: int, agent: nat)
    requires parts != [] && left >= 1 && |Join(parts)| <= Max(|SOURCE_TITLE|, limit + 9)
    requires PerSource(source, left, parts, limit, perAgent) > 0
    ensures var after := WithExcerpt(Select(agent), parts, source, PerSource(source, left, parts, limit, perAgent));
            after != [] && |Join(after)| <= Max(|SOURCE_TITLE|, limit + 9)
  {
    var perSource := PerSource(source, left, parts, limit, perAgent);
    SelectionBound(source.chunks, source.score, source.textLength, agent, perSource);
    ShareAtMost(limit - |Join(parts)| - 2, left);
    JoinSnoc(parts, source.header + Select(agent)(source, perSource));
  }

  // ----- exactly when the sources exceed their limit

  /** Whether the excerpt of a source exceeds its share by more than a room of at least that share has to spare. */
  type Overrun = (Source, int, int) -> bool

  function ExcerptExceeds(agent: nat): Overrun {
    (source: Source, perSource: int, room: int) =>
      room >= perSource && Exceeds(source.chunks, source.score, source.textLength, agent, perSource, room - perSource)
  }

  /** Some source that gets an excerpt exceeds what is left for it; that one is the last. */
  predicate SourcesExceed(exceeds: Overrun, select: Selector, sources: seq<Source>, index: nat, parts: seq<string>,
                          limit: int, perAgent: int)
    decreases |sources| - index
  {
    if index >= |sources| then false
    else
      var source := sources[index];
      var perSource := PerSource(source, |sources| - index, parts, limit, perAgent);
      perSource > 0
      && (|| exceeds(source, perSource, limit - |Join(parts)| - 2 - |source.header|)
          || SourcesExceed(exceeds, select, sources, index + 1, WithExcerpt(select, parts, source, perSource), limit,
              perAgent))
  }

  ghost predicate SplitSources(sources: seq<Source>) {
    forall s | s in sources :: Paragraphs(s.chunks)
  }

  /** The overrun says exactly when the selector's excerpt is longer than its room. */
  ghost predicate Decides(exceeds: Overrun, select: Selector, sources: seq<Source>) {
    forall source, perSource, room | source in sources && 0 < perSource <= room ::
      exceeds(source, perSource, room) <==> |select(source, perSource)| > room
  }

  lemma ExcerptDecides(sources: seq<Source>, agent: nat)
    requires SplitSources(sources)
    ensures Decides(ExcerptExceeds(agent), Select(agent), sources)
  {
    forall source, perSource, room | source in sources && 0 < perSource <= room
      ensures ExcerptExceeds(agent)(source, perSource, room) <==> |Select(agent)(source, perSource)| > room
    {
      SelectionExceedsIff(source.chunks, source.score, source.textLength, agent, perSource, room - perSource);
    }
  }

  /** A share is within what is left for the source. */
  lemma ShareFits(source: Source, left: nat, parts: seq<string>, limit: int, perAgent: int)
    requires left >= 1 && PerSource(source, left, parts, limit, perAgent) > 0
    ensures PerSource(source, left, parts, limit, perAgent) <= limit - |Join(parts)| - 2 - |source.header|
  {
    ShareAtMost(limit - |Join(parts)| - 2, left);
  }

  lemma WithExcerptLength(select: Selector, parts: seq<string>, source: Source, perSource: int)
    requires parts != []
    ensures var snippet := select(source, perSource);
            |Join(WithExcerpt(select, parts, source, perSource))| ==
            |Join(parts)| + if snippet == "" then 0 else 2 + |source.header| + |snippet|
  {
    JoinSnoc(parts, source.header + select(source, perSource));
  }

  lemma OneSource(exceeds: Overrun, select: Selector, sources: seq<Source>, index: nat, parts: seq<string>,
                  limit: int, perAgent: int)
    requires index < |sources|
    ensures var source := sources[index];
            var perSource := PerSource(source, |sources| - index, parts, limit, perAgent);
            var after := WithExcerpt(select, parts, source, perSource);
            if perSource <= 0 then
              && SourceParts(select, sources, index, parts, limit, perAgent) == parts
              && !SourcesExceed(exceeds, select, sources, index, parts, limit, perAgent)
            else
              && SourceParts(select, sources, index, parts, limit, perAgent) ==
                  SourceParts(select, sources, index + 1, after, limit, perAgent)
              && (SourcesExceed(exceeds, select, sources, index, parts, limit, perAgent) <==>
                  || exceeds(source, perSource, limit - |Join(parts)| - 2 - |source.header|)
                  || SourcesExceed(exceeds, select, sources, index + 1, after, limit, perAgent))
  {
  }

  lemma {:induction false} SourcePartsExceedIff(exceeds: Overrun, select: Selector, sources: seq<Source>, index: nat,
                                                parts: seq<string>, limit: int, perAgent: int)
    requires parts != [] && Decides(exceeds, select, sources)
    ensures |Join(SourceParts(select, sources, index, parts, limit, perAgent))| > limit <==>
            |Join(parts)| > limit || SourcesExceed(exceeds, select, sources, index, parts, limit, perAgent)
    decreases |sources| - index
  {
    if index < |sources| {
      OneSource(exceeds, select, sources, index, parts, limit, perAgent);
      var source, left := sources[index], |sources| - index;
      var perSource := PerSource(source, left, parts, limit, perAgent);
      if perSource > 0 {
        ShareFits(source, left, parts, limit, perAgent);
        WithExcerptLength(select, parts, source, perSource);
        SourcePartsExceedIff(exceeds, select, sources, index + 1, WithExcerpt(select, parts, source, perSource),
            limit, perAgent);
      }
    }
  }

  /**
   Without a reservation the earlier results are exactly the sources, so this says when they
   exceed a budget of 80 or more; with one they never do.
   */
  lemma SourceTextExceedsIff(sources: seq<Source>, limit: int, perAgent: int, agent: nat)
    requires limit >= 31 && SplitSources(sources)
    ensures |SourceText(sources, limit, perAgent, agent)| > limit <==>
            SourcesExceed(ExcerptExceeds(agent), Select(agent), sources, 0, [SOURCE_TITLE], limit, perAgent)
  {
    assert |SOURCE_TITLE| == 31;
    ExcerptDecides(sources, agent);
    SourcePartsExceedIff(ExcerptExceeds(agent), Select(agent), sources, 0, [SOURCE_TITLE], limit, perAgent);
  }

  lemma ShareAtMost(remaining: int, n: int)
    requires n >= 1 && remaining / n > 0
    ensures remaining / n <= remaining
  {
    var q := remaining / n;
    assert q * n <= remaining && q <= q * n;
  }

  /** The title and excerpts take at most nine characters more than their share. */
  lemma SourceTextBound(sources: seq<Source>, limit: int, perAgent: int, agent: nat)
    ensures |SourceText(sources, limit, perAgent, agent)| <= Max(31, limit + 9)
  {
    assert |SOURCE_TITLE| == 31;
    SourcePartsBound(sources, 0, [SOURCE_TITLE], limit, perAgent, agent);
  }

  /** What half of the remaining characters hold of a digest fits beside its header exactly from 21 characters on. */
  lemma FreshDigestFits(encode: Encoder, payload: Payload, remaining: int, json: string)
    requires SaneEncoder(encode) && FitOf(encode, payload, Max(0, remaining / 2 - 19), json)
    ensures |DIGEST_HEADER + json| + 2 <= remaining <==> remaining >= 21
  {
    assert |DIGEST_HEADER| == 17;
    var limit := Max(0, remaining / 2 - 19);
    assert |encode(payload)| >= 2 && |encode(OMISSION)| >= 2;
    if limit < 2 {
      assert json == "{}";
    } else {
      assert |json| <= limit;
    }
  }

  /** The digest section, when the reader has a digest and the section fits what remains. */
  method DigestPart(encode: Encoder, slot: DigestSlot, remaining: int) returns (parts: seq<string>)
    ensures IsDigest(encode, parts, slot, remaining)
  {
    assert |DIGEST_HEADER| == 17 && |STALE_DIGEST| == 22;
    if slot.NoDigest? {
      return [];
    }
    var digestText := STALE_DIGEST;
    if slot.Fresh? {
      var digestBudget := Max(0, remaining / 2 - |DIGEST_HEADER| - 2);
      digestText := BoundedContextJson(encode, slot.payload, Some(digestBudget));
    }
    if slot.Fresh? && SaneEncoder(encode) {
      FreshDigestFits(encode, slot.payload, remaining, digestText);
    }
    assert (DIGEST_HEADER + digestText)[17..] == digestText;
    if |DIGEST_HEADER + digestText| + 2 <= remaining {
      return [DIGEST_HEADER + digestText];
    }
    return [];
  }

  /** The structured outputs, when there are any and the section fits what remains. */
  method StructuredPart(encode: Encoder, structured: Payload, remaining: int) returns (parts: seq<string>)
    ensures IsOutputs(encode, parts, structured, remaining)
  {
    assert |STRUCTURED_HEADER| == 11;
    if structured != map[] && remaining >= |STRUCTURED_HEADER| + 4 {
      var json := BoundedContextJson(encode, structured, Some(remaining - |STRUCTURED_HEADER| - 2));
      assert (STRUCTURED_HEADER + json)[11..] == json;
      return [STRUCTURED_HEADER + json];
    }
    return [];
  }

  /** An optional section and its separator. */
  function Section(parts: seq<string>): string {
    if parts == [] then "" else parts[0] + "\n\n"
  }

  /**
   The text is the optional sections, each present exactly when what remains can hold it,
   and then all of the source.
   */
  ghost predicate Arranged(encode: Encoder, text: string, digest: seq<string>, outputs: seq<string>, source: string,
                           structured: Payload, includeDigest: bool, slot: DigestSlot, remaining: int) {
    && text == Section(digest) + (Section(outputs) + source)
    && IsDigest(encode, digest, if includeDigest then slot else NoDigest, remaining)
    && IsOutputs(encode, outputs, structured, remaining - |Section(digest)|)
  }

  /** The digest section: its header, and the fitted digest or the warning that it is stale. */
  ghost predicate IsDigest(encode: Encoder, parts: seq<string>, slot: DigestSlot, remaining: int) {
    && (parts == [] || (|parts| == 1 && |parts[0]| + 2 <= remaining && DIGEST_HEADER <= parts[0]))
    && (slot.NoDigest? ==> parts == [])
    && (slot.NotFresh? ==> parts == if remaining >= 41 then [DIGEST_HEADER + STALE_DIGEST] else [])
    && (slot.Fresh? && SaneEncoder(encode) ==> (parts != [] <==> remaining >= 21))
    && (slot.Fresh? && parts != [] ==> FitOf(encode, slot.payload, Max(0, remaining / 2 - 19), parts[0][17..]))
  }

  /** The section of structured outputs: its header and what fits of them. */
  ghost predicate IsOutputs(encode: Encoder, parts: seq<string>, structured: Payload, remaining: int) {
    && (parts != [] <==> structured != map[] && remaining >= 15)
    && (parts == [] || (|parts| == 1 && |parts[0]| + 2 <= remaining && STRUCTURED_HEADER <= parts[0]
                        && FitOf(encode, structured, remaining - 13, parts[0][11..])))
  }

  method ArrangeSections(encode: Encoder, source: string, structured: Payload, includeDigest: bool, slot: DigestSlot,
                         maxTotal: int)
    returns (text: string, ghost digest: seq<string>, outputs: seq<string>)
    ensures |text| <= Max(maxTotal - 2, |source|)
    ensures ArrangedWithin(encode, text, digest, outputs, structured, includeDigest, slot, maxTotal, source)
  {
    var remaining := maxTotal - |source| - 2;
    var parts: seq<string> := [];
    if includeDigest {
      parts := DigestPart(encode, slot, remaining);
    }
    digest := parts;
    var left := remaining - (if parts == [] then 0 else |parts[0]| + 2);
    outputs := StructuredPart(encode, structured, left);
    parts := parts + (outputs + [source]);
    text := Join(parts);
    JoinSections(digest, outputs, source);
  }

  lemma JoinSections(digest: seq<string>, outputs: seq<string>, source: string)
    requires |digest| <= 1 && |outputs| <= 1
    ensures Join(digest + (outputs + [source])) == Section(digest) + (Section(outputs) + source)
  {
    JoinOptional(outputs, [source]);
    JoinOptional(digest, outputs + [source]);
  }

  lemma JoinOptional(optional: seq<string>, rest: seq<string>)
    requires |optional| <= 1 && rest != []
    ensures Join(optional + rest) == Section(optional) + Join(rest)
  {
    if optional == [] {
      assert optional + rest == rest;
    } else {
      assert (optional + rest)[1..] == rest;
    }
  }

  /** The short answer given instead of the sections, if any. */
  function Notice(blind: bool, nothing: bool, maxTotal: nat): (r: Option<string>)
    ensures r.Some? && maxTotal >= 80 ==> |r.value| <= 80
    ensures r.None? <==> !blind && !nothing && maxTotal >= 80
    ensures r == Some(BLIND_TEXT) <==> blind
    ensures r == Some(NO_PREVIOUS) <==> nothing && !blind
    ensures r == Some("") <==> !blind && !nothing && maxTotal < 20
  {
    assert |BLIND_TEXT| <= 60 && BLIND_TEXT != NO_PREVIOUS && BLIND_TEXT != BUDGET_TOO_SMALL;
    assert |NO_PREVIOUS| < |BUDGET_TOO_SMALL|;
    if blind then Some(BLIND_TEXT)
    else if nothing then Some(NO_PREVIOUS)
    else if maxTotal < 80 then Some(if maxTotal >= 20 then BUDGET_TOO_SMALL else "")
    else None
  }

  /** With a reservation, two fifths of the budget hold the overrun of nine and the separator. */
  lemma SourceShare(sources: seq<Source>, maxTotal: nat, reserve: bool, perAgent: int, agent: nat)
    requires maxTotal >= 80
    ensures |SourceText(sources, SourceLimit(maxTotal, reserve), perAgent, agent)| <=
            if reserve then maxTotal - 2 else maxTotal + 9
  {
    SourceTextBound(sources, SourceLimit(maxTotal, reserve), perAgent, agent);
  }

  /** The source excerpts in their share of the budget, after the sections that fit what they leave. */
  ghost predicate Formatted(encode: Encoder, text: string, digest: seq<string>, outputs: seq<string>,
                            sources: seq<Source>, structured: Payload, includeDigest: bool, slot: DigestSlot,
                            maxTotal: nat, perAgent: int, agent: nat) {
    ArrangedWithin(encode, text, digest, outputs, structured, includeDigest, slot, maxTotal,
                   SourceText(sources, SourceLimit(maxTotal, structured != map[] || includeDigest), perAgent, agent))
  }

  /** The sections around these source excerpts under a total. */
  ghost predicate ArrangedWithin(encode: Encoder, text: string, digest: seq<string>, outputs: seq<string>,
                                 structured: Payload, includeDigest: bool, slot: DigestSlot, maxTotal: int,
                                 source: string) {
    Arranged(encode, text, digest, outputs, source, structured, includeDigest, slot, maxTotal - |source| - 2)
  }

  /** The sections under a budget of at least 80: the source excerpts take their share first. */
  method FormatSections(encode: Encoder, sources: seq<Source>, structured: Payload, includeDigest: bool,
                        slot: DigestSlot, maxTotal: nat, perAgent: int, agent: nat)
    returns (text: string, ghost digest: seq<string>, outputs: seq<string>)
    requires maxTotal >= 80
    ensures |text| <= if structured != map[] || includeDigest then maxTotal else maxTotal + 9
    ensures Formatted(encode, text, digest, outputs, sources, structured, includeDigest, slot, maxTotal, perAgent,
            agent)
  {
    var reserve := structured != map[] || includeDigest;
    var source := CollectSources(sources, SourceLimit(maxTotal, reserve), perAgent, agent);
    SourceShare(sources, maxTotal, reserve, perAgent, agent);
    text, digest, outputs := ArrangeSections(encode, source, structured, includeDigest, slot, maxTotal);
  }

  /**
   The earlier results for one agent. Whenever structured outputs exist or digests are
   included, a budget of at least 80 is kept; without either, the text may exceed it by nine.
   The source excerpts always come last and in full, after the digest section and the
   structured outputs.
   */
  method FormatPrevious(encode: Encoder, blind: bool, sources: seq<Source>, structured: Payload, includeDigest: bool,
                        slot: DigestSlot, budget: int, perAgent: int, agent: nat)
    returns (text: string, ghost digest: seq<string>, outputs: seq<string>)
    ensures budget >= 80 ==> |text| <= if structured != map[] || includeDigest then budget else budget + 9
    ensures var notice := Notice(blind, sources == [] && structured == map[], Max(0, budget));
            if notice.Some? then text == notice.value
            else Formatted(encode, text, digest, outputs, sources, structured, includeDigest, slot, budget, perAgent,
                agent)
  {
    digest, outputs := [], [];
    var notice := Notice(blind, sources == [] && structured == map[], Max(0, budget));
    if notice.Some? {
      text := notice.value;
    } else {
      text, digest, outputs := FormatSections(encode, sources, structured, includeDigest, slot, budget, perAgent,
          agent);
    }
  }

  /** An analysis whose first paragraph leaves a single character of its share. */
  function OverrunExample(): Source {
    Source("【財務分析｜精選片段】\n", [seq(32, _ => 'a'), seq(66, _ => 'b')], (_, _) => 0, 100)
  }

  lemma OverrunOfSources()
    ensures |SourceText([OverrunExample()], 80, 2200, 7)| == 89
  {
    var source := OverrunExample();
    assert |source.header| == 12 && |SOURCE_TITLE| == 31 && |Note(7, 56)| >= 35;
    SelectionSlackIsReached(source.chunks[0], source.chunks[1], source.score, 100, 7);
    var snippet := Selected(source.chunks, source.score, 100, 7, 35);
    assert |Join([SOURCE_TITLE])| == 31;
    JoinSnoc([SOURCE_TITLE], source.header + snippet);
    assert SourceParts(Select(7), [source], 0, [SOURCE_TITLE], 80, 2200) == [SOURCE_TITLE] + [source.header + snippet];
  }

  /** The overrun without a reservation is real: a budget of 80 yields a text of 89 characters. */
  method OverrunWithoutReservation(encode: Encoder, slot: DigestSlot) returns (text: string)
    ensures |text| == 89
  {
    ghost var digest;
    var outputs;
    text, digest, outputs := FormatPrevious(encode, false, [OverrunExample()], map[], false, slot, 80, 2200, 7);
    OverrunOfSources();
  }
}
