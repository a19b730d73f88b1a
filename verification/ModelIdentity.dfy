/** Runtime-agnostic model keys (internal/modelruntime): references, matching and inventory look-up. */
module ModelIdentity {
  import opened Text

  datatype Option<+T> = None | Some(value: T)

  datatype Identity = Identity(name: string, tag: string, runtime: string)

  /** Does "name:tag" split at position c? The suffix must look like a tag. */
  predicate SplitsAt(ref: string, c: int)
    requires c < |ref|
  {
    c > 0 && ref[c + 1..] != "" && '/' !in ref[c + 1..]
  }

  function ParseRef(raw: string): Identity {
    var ref := TrimSpace(raw);
    if ref == "" then Identity("", "", "")
    else
      var c := LastIndex(ref, ':');
      if SplitsAt(ref, c) then Identity(ref[..c], ref[c + 1..], "") else Identity(ref, "", "")
  }

  function Ref(id: Identity): string {
    var name := TrimSpace(id.name);
    var tag := TrimSpace(id.tag);
    if name == "" then "" else if tag == "" then name else name + ":" + tag
  }

  /** A reference is clean when no white space touches its ends or the colon it splits at. */
  predicate CleanRef(s: string) {
    && Trimmed(s)
    && var c := LastIndex(s, ':');
       SplitsAt(s, c) ==> !IsSpace(s[c - 1]) && !IsSpace(s[c + 1])
  }

  /** Two parts printed around a colon, trimmed or not, give their own text exactly when both are trimmed. */
  lemma PrintedParts(name: string, tag: string)
    requires name != "" && tag != ""
    ensures |Ref(Identity(name, tag, ""))| <= |name| + 1 + |tag|
    ensures Ref(Identity(name, tag, "")) == name + ":" + tag <==> Trimmed(name) && Trimmed(tag)
  {
    var n, t := TrimSpace(name), TrimSpace(tag);
    if n != "" && t != "" && n + ":" + t == name + ":" + tag {
      assert |n| == |name| && |t| == |tag|;
      assert n == (n + ":" + t)[..|n|] && name == (name + ":" + tag)[..|name|];
      assert t == (n + ":" + t)[|n| + 1..] && tag == (name + ":" + tag)[|name| + 1..];
    }
  }

  lemma SplitParts(ref: string, c: nat)
    requires Trimmed(ref) && c < |ref| && SplitsAt(ref, c) && ref[c] == ':'
    ensures ref == ref[..c] + ":" + ref[c + 1..]
    ensures Trimmed(ref[..c]) && Trimmed(ref[c + 1..]) <==> !IsSpace(ref[c - 1]) && !IsSpace(ref[c + 1])
  {
    var name, tag := ref[..c], ref[c + 1..];
    assert name[0] == ref[0] && name[|name| - 1] == ref[c - 1];
    assert tag[0] == ref[c + 1] && tag[|tag| - 1] == ref[|ref| - 1];
  }

  /** For trimmed text. */
  lemma TrimmedThenPrint(ref: string)
    requires Trimmed(ref)
    ensures |Ref(ParseRef(ref))| <= |ref|
    ensures Ref(ParseRef(ref)) == ref <==> CleanRef(ref)
  {
    assert TrimSpace(ref) == ref;
    if ref != "" {
      var c := LastIndex(ref, ':');
      if SplitsAt(ref, c) {
        SplitParts(ref, c);
        PrintedParts(ref[..c], ref[c + 1..]);
      }
    }
  }

  /** Printing what was parsed gives the text back exactly for clean references. */
  lemma ParseThenPrint(s: string)
    ensures Ref(ParseRef(s)) == s <==> CleanRef(s)
  {
    var ref := TrimSpace(s);
    TrimmedThenPrint(ref);
    ParseTrims(s);
  }

  lemma ParseTrims(s: string)
    ensures ParseRef(s) == ParseRef(TrimSpace(s))
  {
    assert TrimSpace(TrimSpace(s)) == TrimSpace(s);
  }

  /** White space free text is clean, which is the case the callers rely on. */
  lemma WhitespaceFreeIsClean(s: string)
    requires forall i :: 0 <= i < |s| ==> !IsSpace(s[i])
    ensures Ref(ParseRef(s)) == s
  {
    ParseThenPrint(s);
  }

  lemma PrintedTrimmed(id: Identity)
    requires id.name != "" && Trimmed(id.name) && Trimmed(id.tag)
    ensures Ref(id) == if id.tag == "" then id.name else id.name + ":" + id.tag
    ensures Trimmed(Ref(id)) && Ref(id) != ""
  {
    assert TrimSpace(id.name) == id.name && TrimSpace(id.tag) == id.tag;
    if id.tag != "" {
      var ref := id.name + ":" + id.tag;
      assert ref[0] == id.name[0] && ref[|ref| - 1] == id.tag[|id.tag| - 1];
    }
  }

  /** Where the last colon of a printed reference is. */
  lemma LastColon(name: string, tag: string)
    ensures var ref, n := name + ":" + tag, |name|;
            if ':' in tag then LastIndex(ref, ':') > n else LastIndex(ref, ':') == n
  {
    var ref, n := name + ":" + tag, |name|;
    assert ref[n] == ':' && forall k :: n < k < |ref| ==> ref[k] == tag[k - n - 1];
    if ':' in tag {
      var k :| 0 <= k < |tag| && tag[k] == ':';
      assert ref[n + 1 + k] == ':';
    }
  }

  lemma PrintThenParseTagged(name: string, tag: string)
    requires name != "" && tag != "" && Trimmed(name + ":" + tag)
    ensures ParseRef(name + ":" + tag) == Identity(name, tag, "") <==> ':' !in tag && '/' !in tag
  {
    var ref, n := name + ":" + tag, |name|;
    LastColon(name, tag);
    assert TrimSpace(ref) == ref && ref[..n] == name && ref[n + 1..] == tag;
    var c := LastIndex(ref, ':');
    if c > n && SplitsAt(ref, c) {
      assert |ref[..c]| > |name|;
    }
  }

  /** The other direction: a trimmed name and tag come back from their printed form exactly when
      the tag holds neither ':' nor '/', or, without a tag, when the name itself does not split. */
  lemma PrintThenParse(id: Identity)
    requires id.name != "" && Trimmed(id.name) && Trimmed(id.tag)
    ensures ParseRef(Ref(id)) == id.(runtime := "") <==>
            if id.tag != "" then ':' !in id.tag && '/' !in id.tag
            else !SplitsAt(id.name, LastIndex(id.name, ':'))
  {
    PrintedTrimmed(id);
    if id.tag != "" {
      PrintThenParseTagged(id.name, id.tag);
    } else {
      assert TrimSpace(id.name) == id.name;
    }
  }

  function Normalize(s: string): string {
    ToLower(TrimSpace(s))
  }

  predicate EqualNameTag(want: Identity, have: Identity) {
    && Normalize(want.name) != "" && Normalize(have.name) != ""
    && Normalize(want.name) == Normalize(have.name)
    && (want.tag == "" || Normalize(want.tag) == Normalize(have.tag))
  }

  predicate Matches(want: Identity, have: Identity) {
    && EqualNameTag(want, have)
    && (want.runtime == "" || Normalize(want.runtime) == Normalize(have.runtime))
  }

  datatype ModelState = Unspecified | NotPresent | Downloading | Available | Loaded | Unloaded | OtherState(text: string)

  datatype Model = Model(name: string, tag: string, runtime: string, state: ModelState, sizeBytes: nat)

  function IdentityOf(m: Model): Identity {
    Identity(m.name, m.tag, m.runtime)
  }

  /** First inventory row that satisfies want. */
  function Match(models: seq<Model>, want: Identity): (r: Option<Model>)
    ensures r.Some? ==> r.value in models && Matches(want, IdentityOf(r.value))
    ensures r.None? ==> forall m :: m in models ==> !Matches(want, IdentityOf(m))
  {
    if models == [] then None
    else if Matches(want, IdentityOf(models[0])) then Some(models[0])
    else Match(models[1..], want)
  }

  predicate HasModel(models: seq<Model>, want: Identity) {
    match Match(models, want)
    case None => false
    case Some(m) => m.state in {Available, Loaded, Unloaded, Unspecified}
  }

  predicate IsLoaded(models: seq<Model>, want: Identity) {
    match Match(models, want)
    case None => false
    case Some(m) => m.state.Loaded?
  }

  // ---------------------------------------------------------------- the look-up, spelled out

  predicate SameWord(a: string, b: string) {
    EqualFold(TrimSpace(a), TrimSpace(b))
  }

  /** The row is of the model asked for; a tag or runtime left open fits any. */
  predicate Serves(m: Model, want: Identity) {
    && TrimSpace(want.name) != "" && SameWord(m.name, want.name)
    && (want.tag == "" || SameWord(m.tag, want.tag))
    && (want.runtime == "" || SameWord(m.runtime, want.runtime))
  }

  ghost predicate FirstServing(models: seq<Model>, want: Identity, k: int) {
    0 <= k < |models| && Serves(models[k], want) && forall j :: 0 <= j < k ==> !Serves(models[j], want)
  }

  lemma ServesIff(m: Model, want: Identity)
    ensures Matches(want, IdentityOf(m)) <==> Serves(m, want)
  {
    assert forall s :: ToLower(s) == "" <==> s == "";
  }

  lemma FirstBehind(models: seq<Model>, want: Identity)
    requires models != [] && !Serves(models[0], want)
    ensures forall k :: FirstServing(models, want, k) ==> FirstServing(models[1..], want, k - 1)
    ensures forall k :: FirstServing(models[1..], want, k) ==> FirstServing(models, want, k + 1)
  {
    hide Serves;
    var rest := models[1..];
    assert forall j :: 0 <= j < |rest| ==> rest[j] == models[j + 1];
    forall k | FirstServing(rest, want, k)
      ensures FirstServing(models, want, k + 1)
    {
      assert forall j :: 0 < j < k + 1 ==> models[j] == rest[j - 1];
    }
  }

  lemma {:induction false} MatchIsFirst(models: seq<Model>, want: Identity)
    ensures forall k :: FirstServing(models, want, k) ==> Match(models, want) == Some(models[k])
    ensures Match(models, want).Some? ==> exists k :: FirstServing(models, want, k)
  {
    hide Serves, Matches;
    if models != [] {
      ServesIff(models[0], want);
      MatchIsFirst(models[1..], want);
      if Serves(models[0], want) {
        assert FirstServing(models, want, 0);
      } else {
        FirstBehind(models, want);
        assert forall k :: FirstServing(models, want, k) ==> models[k] == models[1..][k - 1];
      }
    }
  }

  predicate UsableState(st: ModelState) {
    st == Available || st == Loaded || st == Unloaded || st == Unspecified
  }

  /** A model is on the node when the first row that serves says so, or says nothing of its state; it is in
      memory when that row says LOADED. A row in front that is still downloading hides one behind it. */
  lemma PresenceIff(models: seq<Model>, want: Identity)
    ensures HasModel(models, want) <==> exists k :: FirstServing(models, want, k) && UsableState(models[k].state)
    ensures IsLoaded(models, want) <==> exists k :: FirstServing(models, want, k) && models[k].state == Loaded
  {
    hide Serves;
    MatchIsFirst(models, want);
  }
}
