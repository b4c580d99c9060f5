/** The iterator that interleaves topic parts with separators, without building the topic. */
module TopicIterators {
  import opened Bytes
  import opened Utf8
  import opened Topics
  import S = Subscribes

  const SEPARATOR: bytes := [0x2F]

  function Interleaved(parts: seq<str>): seq<bytes> {
    if parts == [] then []
    else if |parts| == 1 then [parts[0]]
    else [parts[0], SEPARATOR] + Interleaved(parts[1..])
  }

  class TopicIterator {
    var rest: seq<str>
    var first: bool
    var prevWasSeparator: bool

    ghost predicate Valid()
      reads this
    {
      first ==> !prevWasSeparator
    }

    /** What is still to be yielded. */
    ghost function Pending(): seq<bytes>
      reads this
    {
      if !first && !prevWasSeparator && rest != [] then [SEPARATOR] + Interleaved(rest) else Interleaved(rest)
    }

    constructor (parts: seq<str>)
      ensures Valid() && Pending() == Interleaved(parts)
    {
      rest := parts;
      first := true;
      prevWasSeparator := false;
    }

    method Next() returns (r: Option<bytes>)
      requires Valid()
      modifies this
      ensures Valid()
      ensures match r
              case None => old(Pending()) == [] && Pending() == []
              case Some(part) => old(Pending()) == [part] + Pending()
    {
      if first {
        first := false;
        r := TakePart();
      } else if !prevWasSeparator {
        if rest == [] {
          return None;
        }
        prevWasSeparator := true;
        return Some(SEPARATOR);
      } else {
        prevWasSeparator := false;
        r := TakePart();
      }
    }

    /** `next()` of the underlying iterator. */
    method TakePart() returns (r: Option<bytes>)
      modifies this`rest
      ensures if old(rest) == [] then r == None && rest == [] else r == Some(old(rest)[0]) && rest == old(rest)[1..]
    {
      if rest == [] {
        return None;
      }
      r := Some(rest[0]);
      rest := rest[1..];
    }
  }

  /** What the iterator yields is, put together, the topic that joining the parts gives. */
  lemma {:induction false} InterleavedIsJoined(parts: seq<str>)
    ensures Flatten(Interleaved(parts)) == S.Join(parts, SEPARATOR)
  {
    if |parts| == 1 {
      assert Flatten(Interleaved(parts)) == parts[0] + Flatten([]);
    } else if |parts| > 1 {
      InterleavedIsJoined(parts[1..]);
      FlattenConcat([parts[0], SEPARATOR], Interleaved(parts[1..]));
      var pair: seq<bytes> := [parts[0], SEPARATOR];
      assert pair[1..] == [SEPARATOR] && pair[1..][1..] == [];
      assert Flatten(pair) == parts[0] + (SEPARATOR + []);
    }
  }

  lemma {:induction false} JoinIsJoinLevels(parts: seq<str>, levels: seq<bytes>)
    requires levels == parts
    ensures S.Join(parts, SEPARATOR) == JoinLevels(levels)
  {
    if |parts| > 1 {
      JoinIsJoinLevels(parts[1..], levels[1..]);
    }
  }

  /** Splitting the joined topic at `/` (0x2F) gives the parts back, if no part contains one. */
  lemma JoinedPartsSplit(parts: seq<str>)
    requires parts != [] && forall i :: 0 <= i < |parts| ==> 0x2F !in parts[i]
    ensures Levels(S.Join(parts, SEPARATOR)) == parts
  {
    JoinIsJoinLevels(parts, parts);
    LevelsOfJoin(parts);
  }

  /** Draining the iterator formats the topic. */
  method FormatTopic(parts: seq<str>) returns (topic: bytes)
    ensures topic == S.Join(parts, SEPARATOR)
  {
    hide TopicIterator.Pending, Interleaved, S.Join, Utf8.Valid;
    topic := [];
    var iter := new TopicIterator(parts);
    ghost var all := Interleaved(parts);
    while true
      invariant fresh(iter) && iter.Valid()
      invariant Flatten(all) == topic + Flatten(iter.Pending())
      decreases |iter.Pending()|
    {
      var part := iter.Next();
      if part == None {
        InterleavedIsJoined(parts);
        return;
      }
      FlattenCons(part.value, iter.Pending());
      topic := topic + part.value;
    }
  }
}
