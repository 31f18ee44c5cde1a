/**
 * What the chat screen derives from its message list when it renders: the
 * messages grouped under their date labels, and the time shown under each message.
 *
 * The grouping reads each message's timestamp as a calendar day through `dateOf`
 * (the model of `new Date(timestamp)` in the local time zone) and labels that day
 * relative to `today`.
 */
module ChatView {
  import opened ChatTypes
  import opened JsText
  import opened DateUtils
  import ChatStore

  /** `message.time.slice(10, -3)`: the timestamp without its first ten and last three characters. */
  function DisplayTime(time: string): (shown: string)
    ensures |shown| == if |time| > 13 then |time| - 13 else 0
    ensures |time| > 13 ==> time == time[..10] + shown + time[|time| - 3..]
  {
    Slice(time, 10, -3)
  }

  /** For a `YYYY-MM-DD HH:MM:SS` timestamp the shown text is the separator and `HH:MM`. */
  lemma DisplayTimeOfDateTime(time: string)
    requires |time| == 19
    ensures DisplayTime(time) == time[10..16]
  {
  }

  /**
   * `formatMessageDate` as a function of the timestamp alone: the timestamp is read
   * as the calendar day `dateOf(time)` and labelled relative to `today`.
   */
  function DateLabel(dateOf: string -> Date, today: Date): string -> string {
    (time: string) => FormatMessageDate(dateOf(time), today)
  }

  /** The labels `labelOf(m.time)` of the messages `m` of `ms`, position by position. */
  function Labels(ms: seq<Message>, labelOf: string -> string): (ls: seq<string>)
    ensures |ls| == |ms|
    ensures forall i :: 0 <= i < |ms| ==> ls[i] == labelOf(ms[i].time)
  {
    if ms == [] then []
    else Labels(ms[..|ms| - 1], labelOf) + [labelOf(ms[|ms| - 1].time)]
  }

  predicate NoDuplicates<T(==)>(xs: seq<T>) {
    forall i, j :: 0 <= i < j < |xs| ==> xs[i] != xs[j]
  }

  /** The distinct values of `xs`, each kept where it first occurs. */
  function Distinct(xs: seq<string>): (d: seq<string>)
    ensures NoDuplicates(d)
    ensures forall x :: x in d <==> x in xs
  {
    if xs == [] then []
    else
      var rest := Distinct(xs[..|xs| - 1]);
      if xs[|xs| - 1] in rest then rest else rest + [xs[|xs| - 1]]
  }

  /** The position of the first occurrence of `x` in `xs`. */
  function FirstIndex<T(==)>(xs: seq<T>, x: T): (i: nat)
    requires x in xs
    ensures i < |xs| && xs[i] == x
    ensures forall j :: 0 <= j < i ==> xs[j] != x
  {
    if xs[0] == x then 0 else 1 + FirstIndex(xs[1..], x)
  }

  lemma {:induction false} FirstIndexOfAppend<T>(xs: seq<T>, y: T, x: T)
    requires x in xs
    ensures FirstIndex(xs + [y], x) == FirstIndex(xs, x)
  {
    if xs[0] != x {
      assert (xs + [y])[1..] == xs[1..] + [y];
      FirstIndexOfAppend(xs[1..], y, x);
    }
  }

  /** `Distinct` lists its values in the order in which they first occur. */
  lemma {:induction false} DistinctInFirstOccurrenceOrder(xs: seq<string>, i: nat, j: nat)
    requires i < j < |Distinct(xs)|
    ensures FirstIndex(xs, Distinct(xs)[i]) < FirstIndex(xs, Distinct(xs)[j])
  {
    var d := Distinct(xs);
    var init, last := xs[..|xs| - 1], xs[|xs| - 1];
    assert xs == init + [last];
    var rest := Distinct(init);
    FirstIndexOfAppend(init, last, d[i]);
    if j < |rest| {
      FirstIndexOfAppend(init, last, d[j]);
      DistinctInFirstOccurrenceOrder(init, i, j);
    } else {
      assert d[j] == last && last !in init;
    }
  }

  /** The keys seen so far keep their place when more values arrive. */
  lemma {:induction false} DistinctOfAppend(xs: seq<string>, ys: seq<string>)
    ensures |Distinct(xs)| <= |Distinct(xs + ys)|
    ensures Distinct(xs + ys)[..|Distinct(xs)|] == Distinct(xs)
    decreases |ys|
  {
    if ys != [] {
      var init := ys[..|ys| - 1];
      assert (xs + ys)[..|xs + ys| - 1] == xs + init;
      DistinctOfAppend(xs, init);
    } else {
      assert xs + ys == xs;
    }
  }

  /** The messages of `ms` labelled `key`, in their original order. */
  function Bucket(ms: seq<Message>, key: string, labelOf: string -> string): (b: seq<Message>)
    ensures |b| <= |ms|
    ensures forall i :: 0 <= i < |b| ==> labelOf(b[i].time) == key
  {
    if ms == [] then []
    else
      var m := ms[|ms| - 1];
      Bucket(ms[..|ms| - 1], key, labelOf) + (if labelOf(m.time) == key then [m] else [])
  }

  /** A bucket holds every message of its label as often as the input does, and no other. */
  lemma {:induction false} BucketMultiset(ms: seq<Message>, key: string, labelOf: string -> string, m: Message)
    ensures multiset(Bucket(ms, key, labelOf))[m]
         == if labelOf(m.time) == key then multiset(ms)[m] else 0
  {
    if ms != [] {
      var init := ms[..|ms| - 1];
      assert ms == init + [ms[|ms| - 1]];
      BucketMultiset(init, key, labelOf, m);
    }
  }

  lemma {:induction false} BucketNonEmpty(ms: seq<Message>, key: string, labelOf: string -> string)
    ensures |Bucket(ms, key, labelOf)| > 0 <==> key in Labels(ms, labelOf)
  {
    if ms != [] {
      var init := ms[..|ms| - 1];
      BucketNonEmpty(init, key, labelOf);
      assert Labels(ms, labelOf) == Labels(init, labelOf) + [labelOf(ms[|ms| - 1].time)];
    }
  }

  /**
   * Grouping commutes with concatenation: every message of `xs` comes before every
   * message of `ys` in each bucket, so the order within a bucket is the input order.
   */
  lemma {:induction false} BucketOfAppend(xs: seq<Message>, ys: seq<Message>, key: string, labelOf: string -> string)
    ensures Bucket(xs + ys, key, labelOf) == Bucket(xs, key, labelOf) + Bucket(ys, key, labelOf)
    decreases |ys|
  {
    if ys == [] {
      assert xs + ys == xs;
    } else {
      var init := ys[..|ys| - 1];
      assert (xs + ys)[..|xs + ys| - 1] == xs + init;
      BucketOfAppend(xs, init, key, labelOf);
    }
  }

  /** The sum of the bucket sizes for `keys`. */
  function TotalSize(ms: seq<Message>, keys: seq<string>, labelOf: string -> string): nat {
    if keys == [] then 0
    else |Bucket(ms, keys[0], labelOf)| + TotalSize(ms, keys[1..], labelOf)
  }

  lemma {:induction false} TotalSizeOfSnoc(ms: seq<Message>, m: Message, keys: seq<string>, labelOf: string -> string)
    requires NoDuplicates(keys)
    ensures TotalSize(ms + [m], keys, labelOf)
         == TotalSize(ms, keys, labelOf) + (if labelOf(m.time) in keys then 1 else 0)
  {
    if keys != [] {
      assert (ms + [m])[..|ms + [m]| - 1] == ms;
      assert keys == [keys[0]] + keys[1..];
      TotalSizeOfSnoc(ms, m, keys[1..], labelOf);
    }
  }

  lemma {:induction false} TotalSizeOfExtend(ms: seq<Message>, keys: seq<string>, key: string, labelOf: string -> string)
    ensures TotalSize(ms, keys + [key], labelOf)
         == TotalSize(ms, keys, labelOf) + |Bucket(ms, key, labelOf)|
  {
    if keys != [] {
      assert (keys + [key])[1..] == keys[1..] + [key];
      TotalSizeOfExtend(ms, keys[1..], key, labelOf);
    }
  }

  /** No message is lost or counted twice: the buckets of the distinct labels add up to the input. */
  lemma {:induction false} BucketSizesSumToLength(ms: seq<Message>, labelOf: string -> string)
    ensures TotalSize(ms, Distinct(Labels(ms, labelOf)), labelOf) == |ms|
  {
    if ms != [] {
      var init, m := ms[..|ms| - 1], ms[|ms| - 1];
      assert ms == init + [m];
      var keys := Distinct(Labels(init, labelOf));
      var key := labelOf(m.time);
      BucketSizesSumToLength(init, labelOf);
      TotalSizeOfSnoc(init, m, keys, labelOf);
      if key !in keys {
        TotalSizeOfExtend(ms, keys, key, labelOf);
        BucketNonEmpty(init, key, labelOf);
        assert Bucket(ms, key, labelOf) == Bucket(init, key, labelOf) + [m];
      }
    }
  }

  /**
   * `groupMessagesByDate`: one pass over the messages, creating a bucket the first
   * time a label is met and appending each message to its label's bucket. The label
   * of a message is `formatMessageDate(message.time)`, passed in as `labelOf` because
   * it reads the clock (`DateLabel` is its model). `dateKeys` is the order in which
   * `Object.entries` lists the buckets: insertion order, since no label is an array index.
   */
  method GroupMessagesByDate(messages: seq<Message>, labelOf: string -> string)
    returns (dateKeys: seq<string>, groups: map<string, seq<Message>>)
    ensures dateKeys == Distinct(Labels(messages, labelOf))
    ensures forall key :: key in groups <==> key in dateKeys
    ensures forall key :: key in groups ==> groups[key] == Bucket(messages, key, labelOf)
    ensures forall key :: key in groups ==> |groups[key]| > 0
    ensures forall i :: 0 <= i < |messages| ==>
              labelOf(messages[i].time) in groups && messages[i] in groups[labelOf(messages[i].time)]
    ensures TotalSize(messages, dateKeys, labelOf) == |messages|
  {
    dateKeys, groups := [], map[];
    for n := 0 to |messages|
      invariant dateKeys == Distinct(Labels(messages[..n], labelOf))
      invariant forall key :: key in groups <==> key in dateKeys
      invariant forall key :: key in groups ==> groups[key] == Bucket(messages[..n], key, labelOf)
    {
      var message := messages[n];
      var dateKey := labelOf(message.time);
      assert messages[..n + 1][..n] == messages[..n];
      if dateKey !in groups {
        groups := groups[dateKey := []];
        dateKeys := dateKeys + [dateKey];
        BucketNonEmpty(messages[..n], dateKey, labelOf);
      }
      groups := groups[dateKey := groups[dateKey] + [message]];
    }
    assert messages[..|messages|] == messages;
    forall key | key in groups
      ensures |groups[key]| > 0
    {
      BucketNonEmpty(messages, key, labelOf);
    }
    forall i | 0 <= i < |messages|
      ensures labelOf(messages[i].time) in groups && messages[i] in groups[labelOf(messages[i].time)]
    {
      var key := labelOf(messages[i].time);
      assert key in Labels(messages, labelOf);
      BucketMultiset(messages, key, labelOf, messages[i]);
      assert messages[i] in multiset(messages);
    }
    BucketSizesSumToLength(messages, labelOf);
  }

  /**
   * With the date labels, two messages share a bucket exactly when their timestamps
   * fall on the same calendar day: the buckets are the days.
   */
  lemma SameBucketIffSameDay(a: Message, b: Message, dateOf: string -> Date, today: Date)
    ensures DateLabel(dateOf, today)(a.time) == DateLabel(dateOf, today)(b.time)
        <==> dateOf(a.time) == dateOf(b.time)
  {
    LabelInjective(dateOf(a.time), dateOf(b.time), today);
  }

  /**
   * After a page is appended to the state, every existing bucket keeps its messages
   * as a prefix and the new ones follow; existing labels keep their place in front.
   */
  lemma GroupsAfterLoad(state: ChatState, page: ChatPage, key: string, labelOf: string -> string)
    ensures var next := ChatStore.ApplySuccess(state, page).messages;
      && |Distinct(Labels(state.messages, labelOf))| <= |Distinct(Labels(next, labelOf))|
      && Bucket(next, key, labelOf) == Bucket(state.messages, key, labelOf) + Bucket(page.chats, key, labelOf)
      && Distinct(Labels(next, labelOf))[..|Distinct(Labels(state.messages, labelOf))|]
         == Distinct(Labels(state.messages, labelOf))
  {
    var next := ChatStore.ApplySuccess(state, page).messages;
    BucketOfAppend(state.messages, page.chats, key, labelOf);
    assert Labels(next, labelOf) == Labels(state.messages, labelOf) + Labels(page.chats, labelOf);
    DistinctOfAppend(Labels(state.messages, labelOf), Labels(page.chats, labelOf));
  }
}
