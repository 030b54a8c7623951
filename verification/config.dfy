/** The API-key settings of `config.py`: `ALPHA_VANTAGE_KEY` is read as a
    comma-separated list of keys. */
module Config {
  import opened Wrappers
  import opened Text
  import opened Seqs

  /** The stripped, non-empty parts, in their original order. */
  function StrippedKeys(parts: seq<string>): (keys: seq<string>)
    ensures |keys| <= |parts|
    ensures forall i :: 0 <= i < |keys| ==> keys[i] != ""
    ensures forall i :: 0 <= i < |keys| ==> !IsSpace(Python, keys[i][0]) && !IsSpace(Python, keys[i][|keys[i]| - 1])
    decreases |parts|
  {
    if |parts| == 0 then []
    else
      var k := Strip(Python, parts[0]);
      (if k != "" then [k] else []) + StrippedKeys(parts[1..])
  }

  /** A part that does not strip to nothing. */
  predicate NonBlank(part: string) {
    Strip(Python, part) != ""
  }

  /** The keys are the non-blank parts, stripped, in their order: there is
      one key per non-blank part, and the part with `n` non-blank parts
      before it gives key number `n`. */
  lemma {:induction false} StrippedKeysPlaced(parts: seq<string>)
    ensures |StrippedKeys(parts)| == Count(parts, NonBlank)
    ensures forall i :: 0 <= i < |parts| && NonBlank(parts[i]) ==>
      Count(parts[..i], NonBlank) < |StrippedKeys(parts)|
      && StrippedKeys(parts)[Count(parts[..i], NonBlank)] == Strip(Python, parts[i])
    decreases |parts|
  {
    if |parts| > 0 {
      var rest := parts[1..];
      StrippedKeysPlaced(rest);
      forall i | 0 <= i < |parts| && NonBlank(parts[i])
        ensures Count(parts[..i], NonBlank) < |StrippedKeys(parts)|
          && StrippedKeys(parts)[Count(parts[..i], NonBlank)] == Strip(Python, parts[i])
      {
        if i > 0 {
          assert rest[i - 1] == parts[i];
          PlacedStep(parts, i, Count(rest[..i - 1], NonBlank));
        } else {
          PlacedStep(parts, 0, 0);
        }
      }
    }
  }

  /** The part at `i` lands where it should, given the position `c` its key
      takes among the keys of the parts after the first. */
  lemma PlacedStep(parts: seq<string>, i: nat, c: nat)
    requires i < |parts| && NonBlank(parts[i])
    requires i > 0 ==>
      c == Count(parts[1..][..i - 1], NonBlank) && c < |StrippedKeys(parts[1..])|
      && StrippedKeys(parts[1..])[c] == Strip(Python, parts[i])
    ensures Count(parts[..i], NonBlank) < |StrippedKeys(parts)|
    ensures StrippedKeys(parts)[Count(parts[..i], NonBlank)] == Strip(Python, parts[i])
  {
    var rest := StrippedKeys(parts[1..]);
    var head := if NonBlank(parts[0]) then [Strip(Python, parts[0])] else [];
    StrippedKeysUnfold(parts, head, rest);
    if i > 0 {
      CountPrefix(parts, i);
      assert Count(parts[..i], NonBlank) == |head| + c;
      IndexAfterHead(head, rest, c);
    } else {
      assert parts[..0] == [];
    }
  }

  /** One unfolding of `StrippedKeys`: the first part's key, if any, then the
      keys of the rest. */
  lemma StrippedKeysUnfold(parts: seq<string>, head: seq<string>, rest: seq<string>)
    requires |parts| > 0
    requires head == (if NonBlank(parts[0]) then [Strip(Python, parts[0])] else [])
    requires rest == StrippedKeys(parts[1..])
    ensures StrippedKeys(parts) == head + rest
  {
  }

  lemma IndexAfterHead(head: seq<string>, rest: seq<string>, c: nat)
    requires c < |rest|
    ensures (head + rest)[|head| + c] == rest[c]
  {
  }

  /** Counting over a prefix of length `i > 0` counts the first part and
      the prefix of length `i - 1` of the rest. */
  lemma CountPrefix(parts: seq<string>, i: nat)
    requires 0 < i <= |parts|
    ensures Count(parts[..i], NonBlank) == (if NonBlank(parts[0]) then 1 else 0) + Count(parts[1..][..i - 1], NonBlank)
  {
    assert parts[..i][1..] == parts[1..][..i - 1];
  }

  /** `ALPHA_VANTAGE_KEYS` for the environment value (None when unset). */
  function ParseKeys(env: Option<string>): (keys: seq<string>)
    ensures forall i :: 0 <= i < |keys| ==> keys[i] != "" && Strip(Python, keys[i]) == keys[i]
  {
    var keys := StrippedKeys(Split(env.GetOr(""), ','));
    assert forall i :: 0 <= i < |keys| ==> Strip(Python, keys[i]) == keys[i] by {
      forall i | 0 <= i < |keys| ensures Strip(Python, keys[i]) == keys[i] {
        StripUnpadded(Python, keys[i]);
      }
    }
    keys
  }

  /** `ALPHA_VANTAGE_KEY`: the first key, or None when there is none. */
  function PrimaryKey(keys: seq<string>): (r: Option<string>)
    ensures r.None? <==> |keys| == 0
    ensures r.Some? ==> r.value == keys[0]
  {
    if |keys| > 0 then Some(keys[0]) else None
  }

  /** A string that strips to nothing is whitespace throughout. */
  lemma BlankIsAllSpace(s: string)
    requires Strip(Python, s) == ""
    ensures forall i :: 0 <= i < |s| ==> IsSpace(Python, s[i])
  {
    var t := TrimLeft(Python, s);
    assert t == "";
  }

  /** An unset or blank variable gives no keys and no primary key. */
  lemma BlankGivesNoKeys(env: Option<string>)
    requires Strip(Python, env.GetOr("")) == ""
    ensures ParseKeys(env) == [] && PrimaryKey(ParseKeys(env)).None?
  {
    var s := env.GetOr("");
    BlankIsAllSpace(s);
    assert forall i :: 0 <= i < |s| ==> s[i] != ',';
    assert Split(s, ',') == [s];
  }

  /** Reading comma-joined parts strips each and drops the blank ones. */
  lemma JoinedPartsAreStripped(parts: seq<string>)
    requires |parts| > 0 && forall i :: 0 <= i < |parts| ==> ',' !in parts[i]
    ensures ParseKeys(Some(Join(parts, ","))) == StrippedKeys(parts)
  {
    SplitJoin(parts, ',');
    assert [','] == ",";
  }

  /** Keys joined with commas are read back as the same keys, whatever
      their number. */
  lemma JoinedKeysRoundTrip(keys: seq<string>)
    requires forall i :: 0 <= i < |keys| ==> keys[i] != "" && ',' !in keys[i]
    requires forall i :: 0 <= i < |keys| ==> !IsSpace(Python, keys[i][0]) && !IsSpace(Python, keys[i][|keys[i]| - 1])
    ensures ParseKeys(Some(Join(keys, ","))) == keys
  {
    if |keys| == 0 {
      assert Split("", ',') == [""];
    } else {
      SplitJoin(keys, ',');
      assert [','] == ",";
      StrippedKeysOfUnpadded(keys);
    }
  }

  lemma {:induction false} StrippedKeysOfUnpadded(keys: seq<string>)
    requires forall i :: 0 <= i < |keys| ==> keys[i] != ""
    requires forall i :: 0 <= i < |keys| ==> !IsSpace(Python, keys[i][0]) && !IsSpace(Python, keys[i][|keys[i]| - 1])
    ensures StrippedKeys(keys) == keys
    decreases |keys|
  {
    if |keys| > 0 {
      StripUnpadded(Python, keys[0]);
      StrippedKeysOfUnpadded(keys[1..]);
    }
  }
}
