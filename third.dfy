// The third-party service's start-up: the public URL objects are served
// under, and the choice of object store.
module Third {
  import opened Common
  import opened Strs

  datatype ObjectStore = Minio | Cos | Oss

  /** The configuration name of each object store. */
  function StoreName(o: ObjectStore): string
  {
    match o
    case Minio => "minio"
    case Cos => "cos"
    case Oss => "oss"
  }

  /** The object URL: the configured API URL, rejected when empty or when
      `parses` (`url.Parse`) refuses it, with "/" added if it lacks one, and
      then "object/". */
  function ObjectUrl(apiUrl: string, parses: string -> bool): Result<string>
  {
    if apiUrl == "" then Err(ArgsError)
    else if !parses(apiUrl) then Err(ArgsError)
    else Ok((if apiUrl[|apiUrl| - 1] != '/' then apiUrl + "/" else apiUrl) + "object/")
  }

  /** The URL is accepted exactly when it is non-empty and parses; it then
      starts with the configured URL, ends with "/object/", and holds exactly
      one "/" more than the configured URL when that lacked its final "/". */
  lemma ObjectUrlSpec(apiUrl: string, parses: string -> bool)
    ensures ObjectUrl(apiUrl, parses).Ok? <==> apiUrl != "" && parses(apiUrl)
    ensures var r := ObjectUrl(apiUrl, parses);
      r.Ok? ==>
        HasPrefix(r.value, apiUrl) && |r.value| >= 8 && r.value[|r.value| - 8..] == "/object/" &&
        |r.value| == |apiUrl| + (if apiUrl[|apiUrl| - 1] == '/' then 7 else 8)
  {
    var r := ObjectUrl(apiUrl, parses);
    if r.Ok? {
      var base := if apiUrl[|apiUrl| - 1] != '/' then apiUrl + "/" else apiUrl;
      assert r.value == base + "object/";
      assert base[|base| - 1] == '/';
      assert r.value[..|apiUrl|] == apiUrl;
      assert r.value[|r.value| - 8..] == [base[|base| - 1]] + "object/";
    }
  }

  /** The object store `Object.Enable` selects; any other name is an error. */
  function SelectObjectStore(enable: string): Result<ObjectStore>
  {
    if enable == "minio" then Ok(Minio)
    else if enable == "cos" then Ok(Cos)
    else if enable == "oss" then Ok(Oss)
    else Err(ArgsError)
  }

  /** The selection accepts exactly the three store names, and gives back the
      store of that name. */
  lemma SelectObjectStoreSpec(enable: string)
    ensures SelectObjectStore(enable).Ok? <==> enable in {"minio", "cos", "oss"}
    ensures SelectObjectStore(enable).Ok? ==> StoreName(SelectObjectStore(enable).value) == enable
    ensures forall o :: SelectObjectStore(StoreName(o)) == Ok(o)
  {
  }

  /** `Start` from the API URL on: the URL checks come first, then the store
      selection, then the store's own set-up `open`, whose error is returned. */
  function Start(apiUrl: string, parses: string -> bool, enable: string, open: ObjectStore -> Result<()>)
    : (r: Result<(string, ObjectStore)>)
    ensures r.Ok? <==> (ObjectUrl(apiUrl, parses).Ok? && SelectObjectStore(enable).Ok? &&
                        open(SelectObjectStore(enable).value).Ok?)
    ensures r.Ok? ==> r.value == (ObjectUrl(apiUrl, parses).value, SelectObjectStore(enable).value)
    ensures ObjectUrl(apiUrl, parses).Err? ==> r == Err(ObjectUrl(apiUrl, parses).kind)
  {
    var url :- ObjectUrl(apiUrl, parses);
    var store :- SelectObjectStore(enable);
    var _ :- open(store);
    Ok((url, store))
  }
}
