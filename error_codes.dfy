/**
 * printMap: the error-code histogram as one line of "code:count" entries,
 * sorted as strings and joined by ';'.
 */
module ErrorCodes {
  import opened Maps
  import opened Decimal
  import opened Text

  /**
   * One histogram entry, as `fmt.Sprintf("%d:%d", key, value)` writes it. It
   * reads back: split at ':' it is the canonical text of the code and of the count.
   */
  function Entry(code: int, count: int): (e: string)
    ensures |Split(e, ':')| == 2
    ensures Denotes(Split(e, ':')[0], code) && Denotes(Split(e, ':')[1], count)
  {
    var a, b := IntToString(code), IntToString(count);
    IntToStringRoundTrip(code);
    IntToStringRoundTrip(count);
    assert ':' !in a && ':' !in b;
    SplitAtSep(a, b, ':');
    SplitWithoutSep(b, ':');
    a + ":" + b
  }

  /** An entry never contains the separator, since both numbers are digits and an optional sign. */
  lemma EntryHasNoSeparator(code: int, count: int)
    ensures ';' !in Entry(code, count)
  {
    IntToStringRoundTrip(code);
    IntToStringRoundTrip(count);
    var e := Entry(code, count);
    assert forall k :: 0 <= k < |e| ==> e[k] == '-' || e[k] == ':' || IsDigit(e[k]);
  }

  /** The entries of the map, in an arbitrary but fixed key order. */
  ghost function Entries(m: map<int, int>): seq<string>
  {
    MapList(m, Entry)
  }

  /** The entries of the map in ascending string order. */
  ghost function SortedEntries(m: map<int, int>): seq<string>
  {
    SortedCopy(Entries(m))
  }

  /** The text printMap produces for the map: a function of the map's contents alone. */
  ghost function Render(m: map<int, int>): string
  {
    Join(SortedEntries(m), ';')
  }

  /**
   * printMap: collects one entry per key in whatever order the map is
   * iterated, sorts the entries and joins them with ';'.
   */
  method PrintMap(errCode: map<int, int>) returns (mapStr: string)
    ensures mapStr == Render(errCode)
  {
    var mapArr: seq<string> := [];
    var rest := errCode;
    while rest != map[]
      invariant forall k :: k in rest ==> k in errCode && rest[k] == errCode[k]
      invariant multiset(mapArr) + multiset(Entries(rest)) == multiset(Entries(errCode))
      decreases |rest|
    {
      var key :| key in rest;
      MapListRemove(rest, Entry, key);
      mapArr := mapArr + [Entry(key, rest[key])];
      rest := rest - {key};
    }
    var sorted := new string[|mapArr|](i requires 0 <= i < |mapArr| => mapArr[i]);
    assert sorted[..] == mapArr;
    SortStrings(sorted);
    SortedUnique(sorted[..], SortedEntries(errCode));
    mapStr := Join(sorted[..], ';');
  }

  /** The sorted entries are one "code:count" entry per key of the map, and nothing else. */
  lemma SortedEntriesOfKeys(m: map<int, int>)
    ensures |SortedEntries(m)| == |m|
    ensures forall k :: k in m ==> Entry(k, m[k]) in SortedEntries(m)
    ensures forall e :: e in SortedEntries(m) ==> exists k :: k in m && e == Entry(k, m[k])
  {
    MapListOfKeys(m, Entry);
    SortedCopyMembers(Entries(m));
  }

  /**
   * The printed text can be read back: split at ';' it gives the sorted
   * entries, since no entry contains ';'.
   */
  lemma RenderSplits(m: map<int, int>)
    requires m != map[]
    ensures Split(Render(m), ';') == SortedEntries(m)
  {
    var s := SortedEntries(m);
    SortedEntriesOfKeys(m);
    forall i | 0 <= i < |s|
      ensures ';' !in s[i]
    {
      assert s[i] in s;
      var k :| k in m && s[i] == Entry(k, m[k]);
      EntryHasNoSeparator(k, m[k]);
    }
    assert |s| > 0 by {
      var k := PickKey(m);
      assert Entry(k, m[k]) in s;
    }
    SplitJoin(s, ';');
  }

  /** An empty histogram prints as the empty string. */
  lemma RenderEmpty()
    ensures Render(map[]) == ""
  {
  }
}
