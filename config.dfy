/**
 * The two pieces of logic in the configuration module: the `hass_url`
 * validator that turns an HTTP URL into the WebSocket API URL, and the
 * recursive dictionary merge of the YAML settings.
 */
module Config {
  import opened Json
  import opened Strings

  const ApiPath: string := "/api/websocket"

  /** The scheme step of `convert_to_ws`: `http://` becomes `ws://`, `https://` becomes `wss://`, once. */
  function RewriteScheme(v: string): (r: string)
    ensures StartsWith(v, "http://") ==> r == "ws://" + v[7..]
    ensures StartsWith(v, "https://") ==> r == "wss://" + v[8..]
    ensures !StartsWith(v, "http://") && !StartsWith(v, "https://") ==> r == v
  {
    if StartsWith(v, "http://") then
      assert !StartsWith(v, "https://") by { assert v[4] == ':'; }
      ReplaceFirst(v, "http://", "ws://")
    else if StartsWith(v, "https://") then ReplaceFirst(v, "https://", "wss://")
    else v
  }

  /** There is something other than `/` in `s`. */
  predicate HasHost(s: string)
  {
    RStrip(s, '/') != []
  }

  /** `Config.convert_to_ws(v)` */
  function ConvertToWs(v: string): (r: string)
    ensures EndsWith(r, ApiPath)
    ensures StartsWith(v, "http://") && HasHost(v[7..]) ==> StartsWith(r, "ws://")
    ensures StartsWith(v, "https://") && HasHost(v[8..]) ==> StartsWith(r, "wss://")
    ensures EndsWith(RewriteScheme(v), ApiPath) ==> r == RewriteScheme(v)
    ensures !EndsWith(RewriteScheme(v), ApiPath) ==>
      && StartsWith(RewriteScheme(v), r[..|r| - |ApiPath|])
      && (r[..|r| - |ApiPath|] == [] || r[|r| - |ApiPath| - 1] != '/')
      && forall i :: |r| - |ApiPath| <= i < |RewriteScheme(v)| ==> RewriteScheme(v)[i] == '/'
  {
    var s := RewriteScheme(v);
    if EndsWith(s, ApiPath) then s
    else
      var r := RStrip(s, '/') + ApiPath;
      assert r[..|r| - |ApiPath|] == RStrip(s, '/');
      if StartsWith(v, "http://") && HasHost(v[7..]) then
        RStripKeepsPrefix(s, "ws://", v[7..]);
        r
      else if StartsWith(v, "https://") && HasHost(v[8..]) then
        RStripKeepsPrefix(s, "wss://", v[8..]);
        r
      else
        r
  }

  /** Stripping `/` from the end of `scheme + rest` leaves the scheme alone when `rest` is not all slashes. */
  lemma {:induction false} RStripKeepsPrefix(s: string, scheme: string, rest: string)
    requires s == scheme + rest && HasHost(rest)
    ensures StartsWith(RStrip(s, '/'), scheme)
  {
    if rest != [] && rest[|rest| - 1] == '/' {
      assert s[..|s| - 1] == scheme + rest[..|rest| - 1];
      RStripKeepsPrefix(s[..|s| - 1], scheme, rest[..|rest| - 1]);
    } else {
      assert rest != [];
    }
  }

  /** With nothing after the scheme, `rstrip("/")` eats the scheme's own slashes. */
  lemma BareSchemeLosesItsSlashes()
    ensures ConvertToWs("http://") == "ws:/api/websocket"
  {
    var v := "http://";
    assert StartsWith(v, "http://") && v[7..] == [];
    assert RewriteScheme(v) == "ws://";
    assert !EndsWith("ws://", ApiPath);
    StripSchemeSlashes();
  }

  lemma StripSchemeSlashes()
    ensures RStrip("ws://", '/') == "ws:"
  {
    assert "ws://"[..4] == "ws:/" && "ws:/"[..3] == "ws:";
    assert RStrip("ws:/", '/') == RStrip("ws:", '/') == "ws:";
  }

  /** A `convert_to_ws` result never starts with an HTTP scheme. */
  lemma ConvertedIsNotHttp(v: string)
    ensures !StartsWith(ConvertToWs(v), "http://") && !StartsWith(ConvertToWs(v), "https://")
  {
    var s := RewriteScheme(v);
    var r := ConvertToWs(v);
    if StartsWith(v, "http://") || StartsWith(v, "https://") {
      assert s[0] == 'w';
      if !EndsWith(s, ApiPath) {
        var p := RStrip(s, '/');
        if p == [] {
          assert false;
        }
        assert r[0] == p[0] == s[0];
      }
    } else if !EndsWith(s, ApiPath) {
      var p := RStrip(s, '/');
      assert r == p + ApiPath;
      if |p| >= 8 {
        assert p == v[..|p|];
        assert r[..8] == p[..8] == v[..8];
        assert r[..7] == p[..7] == v[..7];
      } else if |p| == 7 {
        assert r[..7] == v[..7];
        assert r[7] == '/';
        assert p[6] != '/';
      } else if |p| == 6 {
        assert r[6] == '/' && r[7] == 'a';
        assert p[5] != '/';
      } else {
        assert r[|p|] == ApiPath[0] == '/';
        assert r[|p| + 1] == ApiPath[1] == 'a';
      }
    }
  }

  /** `convert_to_ws` is idempotent: a converted URL passes through unchanged. */
  lemma ConvertToWsIdempotent(v: string)
    ensures ConvertToWs(ConvertToWs(v)) == ConvertToWs(v)
  {
    ConvertedIsNotHttp(v);
  }

  // ------------------------------------------------------------ deep_merge

  /** Both sides hold a dict under `key`: the one case `deep_merge` recurses into. */
  predicate BothDicts(base: map<string, Value>, override: map<string, Value>, key: string)
  {
    key in base && key in override && base[key].Dict? && override[key].Dict?
  }

  /** The value `deep_merge` leaves under `key`. */
  function MergeAt(base: map<string, Value>, override: map<string, Value>, key: string): Value
    requires key in base || key in override
    decreases Dict(override), 0
  {
    if BothDicts(base, override, key) then
      assert override[key] in override.Values;
      Dict(DeepMerge(base[key].fields, override[key].fields))
    else if key in override then override[key]
    else base[key]
  }

  /** `deep_merge(base, override)`: a new dict; `base` and `override` are values and stay as they were. */
  function DeepMerge(base: map<string, Value>, override: map<string, Value>): (r: map<string, Value>)
    decreases Dict(override), 1
    ensures r.Keys == base.Keys + override.Keys
    ensures forall key :: key in base && key !in override ==> r[key] == base[key]
    ensures forall key :: key in override && !BothDicts(base, override, key) ==> r[key] == override[key]
    ensures forall key :: BothDicts(base, override, key) ==> r[key].Dict?
  {
    map key | key in base.Keys + override.Keys :: MergeAt(base, override, key)
  }

  /** Where both sides hold a dict, the result holds their recursive merge. */
  lemma MergeRecurses(base: map<string, Value>, override: map<string, Value>, key: string)
    requires BothDicts(base, override, key)
    ensures DeepMerge(base, override)[key] == Dict(DeepMerge(base[key].fields, override[key].fields))
  {
  }

  /** Merging nothing over `base` gives `base`. */
  lemma MergeEmptyOverride(base: map<string, Value>)
    ensures DeepMerge(base, map[]) == base
  {
    assert forall key :: key in DeepMerge(base, map[]) <==> key in base;
  }

  /** Merging over nothing gives `override`. */
  lemma MergeEmptyBase(override: map<string, Value>)
    ensures DeepMerge(map[], override) == override
  {
    assert forall key :: key in DeepMerge(map[], override) <==> key in override;
  }

  /** Merging a dict with itself gives it back, at every depth. */
  lemma {:induction false} MergeSelf(base: map<string, Value>)
    ensures DeepMerge(base, base) == base
    decreases Dict(base)
  {
    var r := DeepMerge(base, base);
    forall key | key in base
      ensures r[key] == base[key]
    {
      if base[key].Dict? {
        assert base[key] in base.Values;
        MergeSelf(base[key].fields);
        MergeRecurses(base, base, key);
      }
    }
    assert forall key :: key in r <==> key in base;
  }

  /** Merging the same override twice changes nothing more: the override has already won everywhere. */
  lemma {:induction false} MergeIdempotent(base: map<string, Value>, override: map<string, Value>)
    ensures DeepMerge(DeepMerge(base, override), override) == DeepMerge(base, override)
    decreases Dict(override)
  {
    var once := DeepMerge(base, override);
    var twice := DeepMerge(once, override);
    forall key | key in once
      ensures twice[key] == once[key]
    {
      if BothDicts(base, override, key) {
        assert override[key] in override.Values;
        MergeRecurses(base, override, key);
        MergeIdempotent(base[key].fields, override[key].fields);
        MergeRecurses(once, override, key);
      } else if key in override && override[key].Dict? && key in once {
        assert once[key] == override[key];
        assert override[key] in override.Values;
        MergeSelf(override[key].fields);
        MergeRecurses(once, override, key);
      }
    }
    assert forall key :: key in twice <==> key in once;
  }
}
