/**
 * The plugin's parameters (`set_params_options`) as read from the parsed
 * administrator settings, and the return types it declares
 * (`supported_returntypes`).
 */
module Config {

  /** One `returntypes/entry` of the settings: its `enable` attribute and its integer `value`. */
  datatype ReturnTypeEntry = ReturnTypeEntry(enable: string, value: int)

  /** The `admin_config` section of the settings document, once parsed. */
  datatype AdminSettings = AdminSettings(
    conteners: seq<string>,
    contents: seq<string>,
    returntypes: seq<ReturnTypeEntry>,
    url: string,
    urlBaseUserManage: string)

  /** The instance parameters, `$this->params` and `$this->url_base_user_manage`. */
  datatype Params = Params(
    space: seq<string>,
    conteners: seq<string>,
    contents: seq<string>,
    returntypes: seq<int>,
    url: string,
    urlBaseUserManage: string)

  /** Moodle's return-type flags. */
  const FileExternal: int := 1
  const FileInternal: int := 2
  const FileReference: int := 4

  /** An entry is kept when its `enable` attribute reads exactly "true". */
  predicate Enabled(e: ReturnTypeEntry) {
    e.enable == "true"
  }

  /** The values of the enabled entries, in order. */
  function EnabledValues(entries: seq<ReturnTypeEntry>): seq<int> {
    if entries == [] then []
    else
      var last := entries[|entries| - 1];
      EnabledValues(entries[..|entries| - 1]) + (if Enabled(last) then [last.value] else [])
  }

  /** `array_sum`. */
  function Sum(xs: seq<int>): int {
    if xs == [] then 0 else Sum(xs[..|xs| - 1]) + xs[|xs| - 1]
  }

  /** `set_params_options` on parsed settings: copy the type lists, keep the enabled return types. */
  method LoadParams(settings: AdminSettings) returns (params: Params)
    ensures params.space == ["UserWorkspace"]
    ensures params.conteners == settings.conteners && params.contents == settings.contents
    ensures params.returntypes == EnabledValues(settings.returntypes)
    ensures params.url == settings.url && params.urlBaseUserManage == settings.urlBaseUserManage
  {
    var conteners: seq<string> := [];
    for i := 0 to |settings.conteners|
      invariant conteners == settings.conteners[..i]
    {
      conteners := conteners + [settings.conteners[i]];
    }
    var contents: seq<string> := [];
    for i := 0 to |settings.contents|
      invariant contents == settings.contents[..i]
    {
      contents := contents + [settings.contents[i]];
    }
    var entries := settings.returntypes;
    var returntypes: seq<int> := [];
    for i := 0 to |entries|
      invariant returntypes == EnabledValues(entries[..i])
    {
      assert entries[..i + 1][..i] == entries[..i];
      if entries[i].enable == "true" {
        returntypes := returntypes + [entries[i].value];
      }
    }
    assert entries[..|entries|] == entries;
    assert settings.conteners[..|settings.conteners|] == settings.conteners;
    assert settings.contents[..|settings.contents|] == settings.contents;
    params := Params(["UserWorkspace"], conteners, contents, returntypes,
                     settings.url, settings.urlBaseUserManage);
  }

  /** `supported_returntypes`: the sum of the configured values, or all three flags when none is configured. */
  function SupportedReturnTypes(returntypes: seq<int>): (r: int)
    ensures returntypes == [] ==> r == FileExternal + FileReference + FileInternal
    ensures returntypes != [] ==> r == Sum(returntypes)
  {
    if returntypes != [] then Sum(returntypes) else 7
  }

  /** A value is configured exactly when some enabled entry carries it. */
  lemma {:induction false} EnabledValuesMembers(entries: seq<ReturnTypeEntry>, v: int)
    ensures v in EnabledValues(entries) <==>
      exists k :: 0 <= k < |entries| && Enabled(entries[k]) && entries[k].value == v
  {
    if entries != [] {
      var init := entries[..|entries| - 1];
      EnabledValuesMembers(init, v);
      if v in EnabledValues(init) {
        var k :| 0 <= k < |init| && Enabled(init[k]) && init[k].value == v;
        assert entries[k] == init[k];
      }
      if exists k :: 0 <= k < |entries| && Enabled(entries[k]) && entries[k].value == v {
        var k :| 0 <= k < |entries| && Enabled(entries[k]) && entries[k].value == v;
        if k < |init| {
          assert init[k] == entries[k];
        }
      }
    }
  }

  /** Filtering a concatenation filters each part, in order. */
  lemma {:induction false} EnabledValuesOfConcat(a: seq<ReturnTypeEntry>, b: seq<ReturnTypeEntry>)
    ensures EnabledValues(a + b) == EnabledValues(a) + EnabledValues(b)
    decreases |b|
  {
    if b == [] {
      assert a + b == a;
    } else {
      var init := b[..|b| - 1];
      var last := b[|b| - 1];
      EnabledValuesOfConcat(a, init);
      assert (a + b)[..|a + b| - 1] == a + init;
      assert (a + b)[|a + b| - 1] == last;
      var tail := if Enabled(last) then [last.value] else [];
      assert EnabledValues(a + b) == EnabledValues(a + init) + tail;
      assert EnabledValues(b) == EnabledValues(init) + tail;
    }
  }

  /** The declared return types of two groups of entries add up. */
  lemma SumOfEnabledConcat(a: seq<ReturnTypeEntry>, b: seq<ReturnTypeEntry>)
    ensures Sum(EnabledValues(a + b)) == Sum(EnabledValues(a)) + Sum(EnabledValues(b))
  {
    EnabledValuesOfConcat(a, b);
    SumOfConcat(EnabledValues(a), EnabledValues(b));
  }

  lemma {:induction false} SumOfConcat(xs: seq<int>, ys: seq<int>)
    ensures Sum(xs + ys) == Sum(xs) + Sum(ys)
    decreases |ys|
  {
    if ys == [] {
      assert xs + ys == xs;
    } else {
      SumOfConcat(xs, ys[..|ys| - 1]);
      assert (xs + ys)[..|xs + ys| - 1] == xs + ys[..|ys| - 1];
    }
  }

  /** With no entry enabled, the plugin declares all three return types. */
  lemma {:induction false} NoEnabledEntryMeansAllTypes(entries: seq<ReturnTypeEntry>)
    requires forall k :: 0 <= k < |entries| ==> !Enabled(entries[k])
    ensures SupportedReturnTypes(EnabledValues(entries)) == FileExternal + FileInternal + FileReference
  {
    if EnabledValues(entries) != [] {
      var v := EnabledValues(entries)[0];
      EnabledValuesMembers(entries, v);
    }
  }
}
