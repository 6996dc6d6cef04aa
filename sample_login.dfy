/**
 * `SampleLoginProvider`: the login provider of the sample application. It
 * accepts exactly one username/password pair and answers with the username
 * itself as the user ID.
 */
module SampleLogin {
  import opened Wrappers

  /** `SampleLoginConfiguration.DEFAULT_USERNAME`, also the default password. */
  const DefaultCredential: string := "sample"

  /** `SampleLoginConfiguration`; a null value is `None`. */
  datatype SampleLoginConfiguration = SampleLoginConfiguration(username: Option<string>, password: Option<string>)

  /** A fresh configuration: both values at their default. */
  const DefaultSampleConfiguration: SampleLoginConfiguration :=
    SampleLoginConfiguration(Some(DefaultCredential), Some(DefaultCredential))

  /** The provider's settings after the constructor: a null value falls back to "sample". */
  datatype SampleLoginProvider = SampleLoginProvider(username: string, password: string)

  function NewSampleLoginProvider(config: SampleLoginConfiguration): (p: SampleLoginProvider)
    ensures p.username == (if config.username.Some? then config.username.value else DefaultCredential)
    ensures p.password == (if config.password.Some? then config.password.value else DefaultCredential)
  {
    SampleLoginProvider(config.username.GetOr(DefaultCredential), config.password.GetOr(DefaultCredential))
  }

  /**
   * `PerformAuthenticationAsync`: the username when both values match the
   * configured ones (ordinal comparison), null otherwise.
   */
  function PerformAuthentication(p: SampleLoginProvider, username: string, password: string): (r: Option<string>)
    ensures r.Some? <==> username == p.username && password == p.password
    ensures r.Some? ==> r.value == username
  {
    if p.username == username && p.password == password then Some(username) else None
  }

  /** With a default configuration only "sample"/"sample" logs in, as user "sample". */
  lemma DefaultAcceptsOnlySample(username: string, password: string)
    ensures var p := NewSampleLoginProvider(DefaultSampleConfiguration);
      && (PerformAuthentication(p, username, password).Some? <==> username == "sample" && password == "sample")
      && PerformAuthentication(p, "sample", "sample") == Some("sample")
  {
  }
}
