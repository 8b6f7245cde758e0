/** Where the panel fetches the URDF description of the selected robot variant. */
module UrdfUrl {
  import opened Wrappers

  /** The variant used when the options carry none. */
  const DefaultModel: string := "ur16e"

  /** The URDF directory under the assets of the plugin `ijaz-ur16e-panel`. */
  const UrlPrefix: string := "/public/plugins/ijaz-ur16e-panel/img/ur_description/urdf/"

  const UrlSuffix: string := ".urdf"

  /** The selected variant key, `options?.model ?? 'ur16e'`. */
  function ModelKey(model: Option<string>): (key: string)
    ensures model.None? ==> key == DefaultModel
    ensures model.Some? ==> key == model.value
  {
    model.GetOr(DefaultModel)
  }

  /** The description's URL, assembled from the variant key. */
  function DescriptionUrl(model: Option<string>): (url: string)
    ensures |url| == |UrlPrefix| + |ModelKey(model)| + |UrlSuffix|
    ensures url[..|UrlPrefix|] == UrlPrefix && url[|url| - |UrlSuffix|..] == UrlSuffix
    ensures url[|UrlPrefix|..|url| - |UrlSuffix|] == ModelKey(model)
  {
    UrlPrefix + ModelKey(model) + UrlSuffix
  }

  /** Recover the variant key from a description URL, if it has the panel's shape. */
  function ModelOfUrl(url: string): (key: Option<string>)
    ensures key.Some? ==> UrlPrefix + key.value + UrlSuffix == url
  {
    if |url| >= |UrlPrefix| + |UrlSuffix|
       && url[..|UrlPrefix|] == UrlPrefix
       && url[|url| - |UrlSuffix|..] == UrlSuffix
    then
      var key := url[|UrlPrefix|..|url| - |UrlSuffix|];
      assert url == url[..|UrlPrefix|] + key + url[|url| - |UrlSuffix|..];
      Some(key)
    else None
  }

  /** The URL names its variant: reading the key back gives the selected key. */
  lemma UrlRoundTrip(model: Option<string>)
    ensures ModelOfUrl(DescriptionUrl(model)) == Some(ModelKey(model))
  {
    var key := ModelKey(model);
    var url := DescriptionUrl(model);
    assert url[..|UrlPrefix|] == UrlPrefix;
    assert url[|url| - |UrlSuffix|..] == UrlSuffix;
    assert url[|UrlPrefix|..|url| - |UrlSuffix|] == key;
  }

  /** Two selections load the same description exactly when they select the same key. */
  lemma UrlDeterminesModel(a: Option<string>, b: Option<string>)
    ensures DescriptionUrl(a) == DescriptionUrl(b) <==> ModelKey(a) == ModelKey(b)
  {
    UrlRoundTrip(a);
    UrlRoundTrip(b);
  }

  /** The two variants the options offer load different descriptions; no selection means ur16e. */
  lemma VariantUrls()
    ensures DescriptionUrl(None) == DescriptionUrl(Some("ur16e"))
    ensures DescriptionUrl(Some("ur16e")) != DescriptionUrl(Some("ur10e"))
    ensures DescriptionUrl(Some("ur10e")) == "/public/plugins/ijaz-ur16e-panel/img/ur_description/urdf/ur10e.urdf"
  {
    UrlDeterminesModel(Some("ur16e"), Some("ur10e"));
  }
}
