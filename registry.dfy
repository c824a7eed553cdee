/**
 * The engine's per-SDK-key state: the loaded config of each key and the
 * client custom data set for it. `initSDK`, `setClientCustomData` and
 * `cleanupSDK` change it; `generateBucketedConfig` and `variableForUser`
 * read it. Keys are isolated from each other.
 */
module Registry {
  import opened Wrappers
  import opened Audience
  import opened Targeting
  import opened ConfigBodies
  import opened Bucketing

  class BucketingRegistry {
    var configs: map<string, ConfigBody>
    var clientCustomData: map<string, CustomData>

    /** No key is loaded and no client data is set. */
    constructor ()
      ensures configs == map[] && clientCustomData == map[]
    {
      configs := map[];
      clientCustomData := map[];
    }

    /** The client custom data of a key; a key that never had any set sees none. */
    function ClientData(sdkKey: string): (r: CustomData)
      reads this
      ensures sdkKey !in clientCustomData ==> r == map[]
      ensures sdkKey in clientCustomData ==> r == clientCustomData[sdkKey]
    {
      if sdkKey in clientCustomData then clientCustomData[sdkKey] else map[]
    }

    /** `initSDK`: loads (or replaces) the config of one key; client data is kept. */
    method InitSdk(sdkKey: string, body: ConfigBody)
      modifies this
      ensures configs == old(configs)[sdkKey := body]
      ensures clientCustomData == old(clientCustomData)
    {
      configs := configs[sdkKey := body];
    }

    /** `setClientCustomData`: replaces the client data of one key as a whole. */
    method SetClientCustomData(sdkKey: string, data: CustomData)
      modifies this
      ensures clientCustomData == old(clientCustomData)[sdkKey := data]
      ensures configs == old(configs)
    {
      clientCustomData := clientCustomData[sdkKey := data];
    }

    /** Drops the client data of one key; it reads as empty afterwards. */
    method ClearClientCustomData(sdkKey: string)
      modifies this
      ensures clientCustomData == old(clientCustomData) - {sdkKey}
      ensures configs == old(configs)
    {
      clientCustomData := clientCustomData - {sdkKey};
    }

    /** `cleanupSDK`: unloads the config of one key. */
    method CleanupSdk(sdkKey: string)
      modifies this
      ensures configs == old(configs) - {sdkKey}
      ensures clientCustomData == old(clientCustomData)
    {
      configs := configs - {sdkKey};
    }

    /**
     * `generateBucketedConfig` for a key: an unknown key is an error;
     * otherwise the key's config, bucketed with the key's client data.
     */
    function GenerateBucketedConfigForUser(sdkKey: string, user: User, hasher: Hasher, now: int)
      : (r: Result<BucketedUserConfig, BucketingError>)
      reads this
      ensures sdkKey !in configs ==> r == Err(UnknownSdkKey(sdkKey))
      ensures sdkKey in configs ==> r == GenerateBucketedConfig(configs[sdkKey], user, ClientData(sdkKey), hasher, now)
    {
      if sdkKey !in configs then Err(UnknownSdkKey(sdkKey))
      else GenerateBucketedConfig(configs[sdkKey], user, ClientData(sdkKey), hasher, now)
    }

    /** `variableForUser` for a key: an unknown key is an error; otherwise the variable or nothing. */
    function VariableForUserOf(sdkKey: string, user: User, hasher: Hasher, now: int, key: string, vtype: VariableType)
      : (r: Result<Option<SDKVariable>, BucketingError>)
      reads this
      ensures r.Err? <==> sdkKey !in configs
      ensures r.Err? ==> r.error == UnknownSdkKey(sdkKey)
      ensures r.Ok? ==> r.value == VariableForUser(configs[sdkKey], user, ClientData(sdkKey), hasher, now, key, vtype)
    {
      if sdkKey !in configs then Err(UnknownSdkKey(sdkKey))
      else Ok(VariableForUser(configs[sdkKey], user, ClientData(sdkKey), hasher, now, key, vtype))
    }
  }

  /**
   * The client-data sequence the bucketing tests walk through: load a
   * config, bucket a user, set client data for the key, bucket the same user
   * again. The second result is the one the user would get with the client
   * data filling the custom-data keys the user does not set; another key's results are
   * untouched throughout.
   */
  method ClientDataSession(reg: BucketingRegistry, sdkKey: string, body: ConfigBody, data: CustomData,
                           user: User, hasher: Hasher, now: int, otherKey: string, other: User)
    returns (before: Result<BucketedUserConfig, BucketingError>, after: Result<BucketedUserConfig, BucketingError>)
    requires sdkKey !in reg.clientCustomData
    requires otherKey != sdkKey
    modifies reg
    ensures before == GenerateBucketedConfig(body, user, map[], hasher, now)
    ensures after == GenerateBucketedConfig(body, WithClientDefaults(user, data), map[], hasher, now)
    ensures reg.GenerateBucketedConfigForUser(otherKey, other, hasher, now)
            == old(reg.GenerateBucketedConfigForUser(otherKey, other, hasher, now))
  {
    reg.InitSdk(sdkKey, body);
    before := reg.GenerateBucketedConfigForUser(sdkKey, user, hasher, now);
    reg.SetClientCustomData(sdkKey, data);
    after := reg.GenerateBucketedConfigForUser(sdkKey, user, hasher, now);
    ClientDataDefaultsCustomData(body, user, data, hasher, now);
  }
}
