/**
 * The Node.js server SDK's entry point: `initializeDevCycle` checks the SDK
 * key and then picks the local-bucketing or the cloud-bucketing client.
 *
 * The server-key predicate is not part of this model and is a
 * parameter; constructing a client is reduced to recording which kind was
 * built, with what key and options.
 */
module ServerSdk {
  import opened Wrappers

  /** The options that matter here; `None` is a flag the caller did not set. */
  datatype ServerOptions = ServerOptions(enableCloudBucketing: Option<bool>)

  /** The options object `{}` used when the caller passes none. */
  const DefaultOptions: ServerOptions := ServerOptions(None)

  datatype ServerClient =
    | LocalClient(sdkKey: string, options: ServerOptions)
    | CloudClient(sdkKey: string, options: ServerOptions)

  const MissingKeyMessage: string := "Missing SDK key! Call initialize with a valid SDK key"
  const InvalidKeyMessage: string := "Invalid SDK key provided. Please call initialize with a valid server SDK key"

  /**
   * `initializeDevCycle(sdkKey, options = {})`: a missing key is reported
   * before an invalid one, and only a set `enableCloudBucketing` selects
   * the cloud client.
   */
  function InitializeDevCycle(sdkKey: Option<string>, options: Option<ServerOptions>,
                              isValidServerSdkKey: string -> bool): (r: Result<ServerClient, string>)
    ensures r == Err(MissingKeyMessage) <==> !Truthy(sdkKey)
    ensures r == Err(InvalidKeyMessage) <==> Truthy(sdkKey) && !isValidServerSdkKey(sdkKey.value)
    ensures r.Ok? <==> Truthy(sdkKey) && isValidServerSdkKey(sdkKey.value)
    ensures r.Ok? ==> r.value.sdkKey == sdkKey.value
    ensures r.Ok? ==> r.value.options == (if options.Some? then options.value else DefaultOptions)
    ensures r.Ok? ==> (r.value.CloudClient? <==> options.Some? && options.value.enableCloudBucketing == Some(true))
  {
    var opts := if options.Some? then options.value else DefaultOptions;
    if !Truthy(sdkKey) then Err(MissingKeyMessage)
    else if !isValidServerSdkKey(sdkKey.value) then Err(InvalidKeyMessage)
    else if opts.enableCloudBucketing == Some(true) then Ok(CloudClient(sdkKey.value, opts))
    else Ok(LocalClient(sdkKey.value, opts))
  }

  /** The deprecated `initialize`, bound to the same function. */
  function Initialize(sdkKey: Option<string>, options: Option<ServerOptions>,
                      isValidServerSdkKey: string -> bool): (r: Result<ServerClient, string>)
    ensures r == InitializeDevCycle(sdkKey, options, isValidServerSdkKey)
  {
    InitializeDevCycle(sdkKey, options, isValidServerSdkKey)
  }

  /** A missing key wins whatever the options say, even with cloud bucketing requested. */
  lemma MissingKeyIgnoresOptions(sdkKey: Option<string>, o1: Option<ServerOptions>, o2: Option<ServerOptions>,
                                 isValidServerSdkKey: string -> bool)
    requires !Truthy(sdkKey)
    ensures InitializeDevCycle(sdkKey, o1, isValidServerSdkKey) == InitializeDevCycle(sdkKey, o2, isValidServerSdkKey)
  {
  }

  /** Without options, and with the flag unset or false, a valid key yields the local client. */
  lemma LocalUnlessCloudRequested(sdkKey: string, options: Option<ServerOptions>, isValidServerSdkKey: string -> bool)
    requires sdkKey != "" && isValidServerSdkKey(sdkKey)
    requires options.None? || options.value.enableCloudBucketing != Some(true)
    ensures InitializeDevCycle(Some(sdkKey), options, isValidServerSdkKey).Ok?
    ensures InitializeDevCycle(Some(sdkKey), options, isValidServerSdkKey).value.LocalClient?
  {
  }
}
