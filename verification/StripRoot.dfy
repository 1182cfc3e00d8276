/** Recovering a logical key from a full backend key (migration/copydiff.go, stripRootPath). */
module StripRoot {

  datatype Stripped = Logical(key: string) | NoRoot

  predicate Occurs(s: string, needle: string, i: int) {
    0 <= i <= |s| - |needle| && s[i..i + |needle|] == needle
  }

  /** strings.Index: the earliest occurrence, or -1. */
  function Index(s: string, needle: string): (i: int)
    ensures i == -1 || Occurs(s, needle, i)
    ensures i == -1 ==> forall j :: !Occurs(s, needle, j)
    ensures i != -1 ==> forall j :: 0 <= j < i ==> !Occurs(s, needle, j)
  {
    IndexFrom(s, needle, 0)
  }

  function IndexFrom(s: string, needle: string, k: nat): (i: int)
    requires forall j :: 0 <= j < k ==> !Occurs(s, needle, j)
    ensures i == -1 || Occurs(s, needle, i)
    ensures i == -1 ==> forall j :: !Occurs(s, needle, j)
    ensures i != -1 ==> forall j :: 0 <= j < i ==> !Occurs(s, needle, j)
    decreases |s| - k
  {
    if k + |needle| > |s| then -1
    else if Occurs(s, needle, k) then k
    else IndexFrom(s, needle, k + 1)
  }

  /** "/" + root stands at i, followed by "/" or the end of the key. */
  predicate Anchored(key: string, root: string, i: int) {
    && Occurs(key, "/" + root, i)
    && var after := i + 1 + |root|;
    && (after == |key| || key[after] == '/')
  }

  predicate Unanchored(key: string, root: string, upto: int) {
    forall i :: 0 <= i < upto ==> !Anchored(key, root, i)
  }

  /** The key starts with root at a segment boundary. */
  predicate StartsAt(key: string, root: string) {
    key == root || root + "/" <= key
  }

  /** What stripping means: the suffix after the slash of the earliest anchor, else the key itself when
      it starts with root, else an error. */
  ghost predicate Strips(key: string, root: string, r: Stripped) {
    match r
    case Logical(k) =>
      || (exists i :: Anchored(key, root, i) && Unanchored(key, root, i) && k == key[i + 1..])
      || (Unanchored(key, root, |key|) && StartsAt(key, root) && k == key)
    case NoRoot => Unanchored(key, root, |key|) && !StartsAt(key, root)
  }

  /** The plain form: try every position in turn. */
  function Strip(key: string, root: string): (r: Stripped)
    ensures Strips(key, root, r)
  {
    StripFrom(key, root, 0)
  }

  function StripFrom(key: string, root: string, i: nat): (r: Stripped)
    requires Unanchored(key, root, i) && i <= |key|
    ensures Strips(key, root, r)
    decreases |key| - i
  {
    if i == |key| then if StartsAt(key, root) then Logical(key) else NoRoot
    else if Anchored(key, root, i) then Logical(key[i + 1..])
    else StripFrom(key, root, i + 1)
  }

  /** The search that jumps from one occurrence of "/" + root to the next finds the same. */
  method StripRootPath(fullKey: string, root: string) returns (r: Stripped)
    ensures Strips(fullKey, root, r) && r == Strip(fullKey, root)
  {
    var needle := "/" + root;
    var from := 0;
    while true
      invariant 0 <= from <= |fullKey| && Unanchored(fullKey, root, from)
      decreases |fullKey| - from
    {
      var rest := fullKey[from..];
      var i := Index(rest, needle);
      if i < 0 {
        forall j | from <= j < |fullKey| ensures !Anchored(fullKey, root, j) {
          ShiftOccurs(fullKey, needle, from, j);
        }
        break;
      }
      var idx := from + i;
      ShiftOccurs(fullKey, needle, from, idx);
      forall j | from <= j < idx ensures !Anchored(fullKey, root, j) {
        ShiftOccurs(fullKey, needle, from, j);
      }
      var after := idx + |needle|;
      if after == |fullKey| || fullKey[after] == '/' {
        FirstAnchor(fullKey, root, idx);
        r := Logical(fullKey[idx + 1..]);
        StripsUnique(fullKey, root, r, Strip(fullKey, root));
        return;
      }
      from := idx + 1;
    }
    r := NoRoot;
    if fullKey == root || root + "/" <= fullKey {
      r := Logical(fullKey);
    }
    StripsUnique(fullKey, root, r, Strip(fullKey, root));
  }

  lemma ShiftOccurs(s: string, needle: string, from: nat, j: int)
    requires from <= |s| && from <= j
    ensures Occurs(s, needle, j) <==> Occurs(s[from..], needle, j - from)
  {
  }

  /** Stripping is a function of its arguments. */
  lemma StripsUnique(key: string, root: string, a: Stripped, b: Stripped)
    requires Strips(key, root, a) && Strips(key, root, b)
    ensures a == b
  {
  }

  /** Where a store with this rootPath keeps a logical key. */
  function FullKey(rootPath: string, logical: string): string {
    if rootPath == "" then logical else rootPath + "/" + logical
  }

  /** No anchor starts before the seam; with an empty rootPath there is none anywhere. */
  predicate NoEarlierAnchor(rootPath: string, root: string, logical: string) {
    var key := FullKey(rootPath, logical);
    Unanchored(key, root, if rootPath == "" then |key| else |rootPath|)
  }

  /** Round trip, exactly: a logical key comes back from its full key if and only if it starts with root at
      a segment boundary and no anchor starts earlier, whether inside rootPath, straddling the seam, or,
      for an empty rootPath, inside the logical key itself. */
  lemma StripRoundTrip(rootPath: string, root: string, logical: string)
    ensures Strip(FullKey(rootPath, logical), root) == Logical(logical) <==>
              StartsAt(logical, root) && NoEarlierAnchor(rootPath, root, logical)
  {
    var key := FullKey(rootPath, logical);
    if StartsAt(logical, root) && NoEarlierAnchor(rootPath, root, logical) {
      if rootPath != "" {
        SeamAnchored(rootPath, root, logical);
        FirstAnchor(key, root, |rootPath|);
      }
      StripsUnique(key, root, Logical(logical), Strip(key, root));
    }
    if Strip(key, root) == Logical(logical) {
      hide Strip;
      if i :| Anchored(key, root, i) && Unanchored(key, root, i) && logical == key[i + 1..] {
        AnchorStarts(key, root, i);
        assert rootPath != "" && i == |rootPath|;
      }
    }
  }

  lemma SeamAnchored(rootPath: string, root: string, logical: string)
    requires rootPath != "" && StartsAt(logical, root)
    ensures var key := FullKey(rootPath, logical);
            |rootPath| < |key| && Anchored(key, root, |rootPath|) && key[|rootPath| + 1..] == logical
  {
    var key, seam := FullKey(rootPath, logical), |rootPath|;
    assert key[seam..seam + 1 + |root|] == "/" + root;
  }

  lemma AnchorStarts(key: string, root: string, i: nat)
    requires Anchored(key, root, i)
    ensures StartsAt(key[i + 1..], root)
  {
    var rest := key[i + 1..];
    assert rest[..|root|] == key[i..i + 1 + |root|][1..] == root;
    if |rest| > |root| {
      assert rest[..|root| + 1] == root + "/";
    } else {
      assert rest == root;
    }
  }

  /** The round trip fails when rootPath holds root as a segment, when an anchor straddles the seam, and
      when, with an empty rootPath, root comes again inside the logical key. */
  lemma StripRoundTripFails()
    ensures FullKey("a/k", "k") == "a/k/k" && Strips("a/k/k", "k", Logical("k/k"))
    ensures FullKey("x/a", "a/a") == "x/a/a/a" && Strips("x/a/a/a", "a/a", Logical("a/a/a"))
    ensures FullKey("", "k/k") == "k/k" && Strips("k/k", "k", Logical("k"))
  {
    hide Strips;
    assert "a/k/k" == "a" + "/" + ("k" + "/" + "k") && "k" + "/" <= "k/k";
    AnchorAtOne("a/k/k", "k", "k/k");
    assert "a/a" + "/" <= "a/a/a";
    AnchorAtOne("x/a/a/a", "a/a", "a/a/a");
    AnchorAtOne("k/k", "k", "k");
  }

  /** Another rootPath gives back the key that was stripped wrongly. */
  lemma StripsToSame()
    ensures Strips(FullKey("a/k", "k"), "k", Logical("k/k")) && Strips(FullKey("b", "k/k"), "k", Logical("k/k"))
  {
    hide Strips;
    StripRoundTripFails();
    assert FullKey("b", "k/k") == "b/k/k" && "k" + "/" <= "k/k" && "b/k/k"[1..] == "/" + "k/k";
    AnchorAtOne("b/k/k", "k", "k/k");
  }

  lemma AnchorAtOne(key: string, root: string, rest: string)
    requires |key| > 1 && key[0] != '/' && key[1..] == "/" + rest && StartsAt(rest, root)
    ensures Strips(key, root, Logical(rest))
  {
    assert key[1..2 + |root|] == "/" + root by {
      assert key[1..2 + |root|] == key[1..][..1 + |root|];
    }
    assert !Occurs(key, "/" + root, 0) by {
      assert ("/" + root)[0] == '/';
    }
    assert key[2..] == key[1..][1..] && ("/" + rest)[1..] == rest;
    FirstAnchor(key, root, 1);
  }

  lemma FirstAnchor(key: string, root: string, i: nat)
    requires Anchored(key, root, i) && Unanchored(key, root, i)
    ensures Strips(key, root, Logical(key[i + 1..]))
  {
  }
}
