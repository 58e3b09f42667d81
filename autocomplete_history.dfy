/**
 * Per-field suggestion histories kept in localStorage: most recent first,
 * no duplicates, at most fifty entries, each field under its own key.
 */
module AutocompleteHistory {

  import opened Text
  import opened Lists
  import opened Storage

  const StorageKeyPrefix: string := "autocomplete_history_"
  const MaxHistory: nat := 50

  /** The storage key of a field's history. */
  function HistoryKey(fieldName: string): string {
    StorageKeyPrefix + fieldName
  }

  /** Different fields never share a key. */
  lemma HistoryKeyInjective(a: string, b: string)
    ensures HistoryKey(a) == HistoryKey(b) ==> a == b
  {
    assert a == HistoryKey(a)[|StorageKeyPrefix|..];
    assert b == HistoryKey(b)[|StorageKeyPrefix|..];
  }

  /** Writing one field's history leaves what every other field reads unchanged. */
  lemma WriteTouchesOnlyItsField(items: map<string, Stored>, fieldName: string, list: seq<string>, other: string)
    requires other != fieldName
    ensures ReadList(items[HistoryKey(fieldName) := Json(list)], HistoryKey(other))
         == ReadList(items, HistoryKey(other))
  {
    HistoryKeyInjective(other, fieldName);
  }

  /** `getAutocompleteHistory`: the stored list, or `[]` when it is missing or unreadable. */
  function GetAutocompleteHistory(store: LocalStorage, fieldName: string): seq<string>
    reads store
  {
    store.GetList(HistoryKey(fieldName))
  }

  function Min(a: nat, b: nat): nat {
    if a <= b then a else b
  }

  /**
   * A field's history after `value` is committed to it. Blank values and
   * values whose trimmed text is already remembered leave it alone (an old
   * entry is not moved to the front); otherwise the trimmed text goes in
   * front and the oldest entries beyond fifty fall off.
   */
  function Committed(history: seq<string>, value: string): (r: seq<string>)
    ensures IsBlank(value) || Trim(value) in history ==> r == history
    ensures !IsBlank(value) && Trim(value) !in history ==>
      && |r| == Min(|history| + 1, MaxHistory)
      && r[0] == Trim(value)
      && r[1..] == history[..|r| - 1]
    ensures !IsBlank(value) ==> Trim(value) in r
  {
    if IsBlank(value) then history
    else
      var trimmed := Trim(value);
      if trimmed in history then history
      else ([trimmed] + history)[..Min(|history| + 1, MaxHistory)]
  }

  /** Committing keeps a history duplicate-free. */
  lemma CommitKeepsNoDups(history: seq<string>, value: string)
    requires NoDups(history)
    ensures NoDups(Committed(history, value))
  {
    if !IsBlank(value) && Trim(value) !in history {
      var t := Trim(value);
      ConsNoDups(t, history);
      PrefixNoDups([t] + history, Min(|history| + 1, MaxHistory));
    }
  }

  /** Committing never takes a history past fifty entries, nor a longer one further. */
  lemma CommitBounded(history: seq<string>, value: string)
    ensures |Committed(history, value)| <= if |history| > MaxHistory then |history| else MaxHistory
  {
  }

  /** Committing the same value twice is the same as committing it once. */
  lemma CommitIdempotent(history: seq<string>, value: string)
    ensures Committed(Committed(history, value), value) == Committed(history, value)
  {
  }

  /** The history after committing every value of `values` in turn. */
  function CommitAll(history: seq<string>, values: seq<string>): seq<string>
    decreases |values|
  {
    if values == [] then history
    else Committed(CommitAll(history, values[..|values| - 1]), values[|values| - 1])
  }

  function Reverse(s: seq<string>): (r: seq<string>)
    ensures |r| == |s|
  {
    if s == [] then [] else [s[|s| - 1]] + Reverse(s[..|s| - 1])
  }

  lemma {:induction false} ReverseMembers(s: seq<string>, x: string)
    ensures x in Reverse(s) <==> x in s
  {
    if s != [] {
      ReverseMembers(s[..|s| - 1], x);
      assert s == s[..|s| - 1] + [s[|s| - 1]];
    }
  }

  /** Truncating before or after putting `v` in front gives the same fifty. */
  lemma ConsTruncated(v: string, rest: seq<string>)
    ensures ([v] + rest[..Min(|rest|, MaxHistory)])[..Min(Min(|rest|, MaxHistory) + 1, MaxHistory)]
         == ([v] + rest)[..Min(|rest| + 1, MaxHistory)]
  {
    var m := Min(|rest|, MaxHistory);
    var a := ([v] + rest[..m])[..Min(m + 1, MaxHistory)];
    var b := ([v] + rest)[..Min(|rest| + 1, MaxHistory)];
    assert |a| == |b|;
    forall i | 0 <= i < |a| ensures a[i] == b[i] {
      if i > 0 {
        assert a[i] == rest[..m][i - 1] == rest[i - 1];
      }
    }
  }

  /** Committing one more value commits it on top of the earlier ones. */
  lemma CommitAllStep(init: seq<string>, v: string)
    ensures CommitAll([], init + [v]) == Committed(CommitAll([], init), v)
  {
    assert (init + [v])[..|init + [v]| - 1] == init;
  }

  /**
   * Starting from an empty history, committing distinct, already-trimmed,
   * non-blank values leaves the (at most fifty) most recent ones, newest
   * first: a fifty-first value pushes out the oldest.
   */
  lemma {:induction false} CommitAllKeepsLatest(values: seq<string>)
    requires NoDups(values)
    requires forall i :: 0 <= i < |values| ==> !IsBlank(values[i]) && Trim(values[i]) == values[i]
    ensures CommitAll([], values) == Reverse(values)[..Min(|values|, MaxHistory)]
  {
    if values != [] {
      var init := values[..|values| - 1];
      var v := values[|values| - 1];
      assert values == init + [v];
      PrefixNoDups(values, |values| - 1);
      assert forall i :: 0 <= i < |init| ==> init[i] == values[i];
      CommitAllKeepsLatest(init);
      var h := CommitAll([], init);
      assert v !in h by {
        ReverseMembers(init, v);
        assert v !in init;
      }
      CommitAllStep(init, v);
      CommitFresh(h, v);
      ConsTruncated(v, Reverse(init));
      assert Reverse(values) == [v] + Reverse(init);
    }
  }

  /** A trimmed, non-blank value the history lacks goes in front, and the fifty newest are kept. */
  lemma CommitFresh(history: seq<string>, v: string)
    requires !IsBlank(v) && Trim(v) == v && v !in history
    ensures Committed(history, v) == ([v] + history)[..Min(|history| + 1, MaxHistory)]
  {
  }

  /** `addToAutocompleteHistory`: commit `value` to the field's stored history. */
  method AddToAutocompleteHistory(store: LocalStorage, fieldName: string, value: string)
    modifies store
    ensures var h := old(GetAutocompleteHistory(store, fieldName));
      store.items == if IsBlank(value) || Trim(value) in h then old(store.items)
                     else old(store.items)[HistoryKey(fieldName) := Json(Committed(h, value))]
    ensures GetAutocompleteHistory(store, fieldName)
         == Committed(old(GetAutocompleteHistory(store, fieldName)), value)
  {
    if IsBlank(value) {
      return;
    }
    var history := GetAutocompleteHistory(store, fieldName);
    var trimmedValue := Trim(value);
    if trimmedValue in history {
      return;
    }
    var updatedHistory := ([trimmedValue] + history)[..Min(|history| + 1, MaxHistory)];
    store.SetList(HistoryKey(fieldName), updatedHistory);
  }

  /** The entries of `history` that `predefined` does not list, in history order. */
  function NotPredefined(history: seq<string>, predefined: seq<string>): (r: seq<string>)
    ensures forall x :: x in r <==> x in history && x !in predefined
    ensures |r| <= |history|
  {
    if history == [] then []
    else if history[0] in predefined then NotPredefined(history[1..], predefined)
    else [history[0]] + NotPredefined(history[1..], predefined)
  }

  /** The filter keeps or drops a lone entry by whether `predefined` lists it. */
  lemma NotPredefinedSingle(x: string, predefined: seq<string>)
    ensures NotPredefined([x], predefined) == if x in predefined then [] else [x]
  {
    assert [x][1..] == [];
  }

  /** The filter works entry by entry, so the kept entries stay in history order. */
  lemma {:induction false} NotPredefinedConcat(a: seq<string>, b: seq<string>, predefined: seq<string>)
    ensures NotPredefined(a + b, predefined) == NotPredefined(a, predefined) + NotPredefined(b, predefined)
  {
    if a != [] {
      assert (a + b)[0] == a[0] && (a + b)[1..] == a[1..] + b;
      NotPredefinedConcat(a[1..], b, predefined);
    } else {
      assert a + b == b;
    }
  }

  lemma {:induction false} NotPredefinedNoDups(history: seq<string>, predefined: seq<string>)
    requires NoDups(history)
    ensures NoDups(NotPredefined(history, predefined))
  {
    if history != [] {
      assert NoDups(history[1..]) by {
        forall i, j | 0 <= i < j < |history[1..]| ensures history[1..][i] != history[1..][j] {
          assert history[1..][i] == history[i + 1] && history[1..][j] == history[j + 1];
        }
      }
      NotPredefinedNoDups(history[1..], predefined);
      if history[0] !in predefined {
        assert history[0] !in history[1..] by {
          forall j | 0 <= j < |history[1..]| ensures history[1..][j] != history[0] {
            assert history[1..][j] == history[j + 1];
          }
        }
        ConsNoDups(history[0], NotPredefined(history[1..], predefined));
      }
    }
  }

  /**
   * The options offered for a field: remembered entries that the predefined
   * list lacks, then the whole predefined list, which is always a suffix.
   */
  function MergeOptions(history: seq<string>, predefined: seq<string>): (r: seq<string>)
    ensures |r| >= |predefined| && r[|r| - |predefined|..] == predefined
    ensures forall x :: x in r <==> x in history || x in predefined
    ensures forall i :: 0 <= i < |r| - |predefined| ==> r[i] !in predefined
    ensures r[..|r| - |predefined|] == NotPredefined(history, predefined)
  {
    var unique := NotPredefined(history, predefined);
    assert forall i :: 0 <= i < |unique| ==> unique[i] in unique;
    unique + predefined
  }

  /** Two duplicate-free lists merge into a duplicate-free list of options. */
  lemma MergeOptionsNoDups(history: seq<string>, predefined: seq<string>)
    requires NoDups(history) && NoDups(predefined)
    ensures NoDups(MergeOptions(history, predefined))
  {
    var u := NotPredefined(history, predefined);
    NotPredefinedNoDups(history, predefined);
    var r := u + predefined;
    forall i, j | 0 <= i < j < |r| ensures r[i] != r[j] {
      if j < |u| {
        assert r[i] == u[i] && r[j] == u[j];
      } else if i < |u| {
        assert r[i] == u[i] && u[i] in u && r[j] == predefined[j - |u|];
      } else {
        assert r[i] == predefined[i - |u|] && r[j] == predefined[j - |u|];
      }
    }
  }

  /** `mergeOptionsWithHistory`: the merged options for a field, read from storage. */
  function MergeOptionsWithHistory(store: LocalStorage, fieldName: string, predefined: seq<string>): seq<string>
    reads store
  {
    MergeOptions(GetAutocompleteHistory(store, fieldName), predefined)
  }

  /** `clearAutocompleteHistory`: forget one field's history. */
  method ClearAutocompleteHistory(store: LocalStorage, fieldName: string)
    modifies store
    ensures store.items == old(store.items) - {HistoryKey(fieldName)}
    ensures GetAutocompleteHistory(store, fieldName) == []
  {
    store.RemoveItem(HistoryKey(fieldName));
  }

  /** `clearAllAutocompleteHistory`: remove every key with the history prefix, and no other. */
  method ClearAllAutocompleteHistory(store: LocalStorage)
    modifies store
    ensures forall k :: k in store.items <==> k in old(store.items) && !StartsWith(k, StorageKeyPrefix)
    ensures forall k :: k in store.items ==> store.items[k] == old(store.items)[k]
    ensures forall f :: GetAutocompleteHistory(store, f) == []
  {
    var keys := store.items.Keys;
    while keys != {}
      invariant forall k :: k in store.items <==>
        k in old(store.items) && (k in keys || !StartsWith(k, StorageKeyPrefix))
      invariant forall k :: k in store.items ==> store.items[k] == old(store.items)[k]
      decreases keys
    {
      var key :| key in keys;
      if StartsWith(key, StorageKeyPrefix) {
        store.RemoveItem(key);
      }
      keys := keys - {key};
    }
    forall f ensures HistoryKey(f) !in store.items {
      assert HistoryKey(f)[..|StorageKeyPrefix|] == StorageKeyPrefix;
    }
  }
}
