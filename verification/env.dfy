/**
 * Server configuration read from the process environment: each setting is
 * the variable's value, or a default when the variable is unset or empty;
 * the validity check reports the required settings that are empty.
 */
module Env {
  import opened Strings

  /** The process environment: variable names to values. */
  type Environment = map<string, string>

  /** `process.env.NAME || fallback`: an unset or empty variable takes the fallback. */
  function Setting(vars: Environment, name: string, fallback: string): (r: string)
    ensures name in vars && vars[name] != "" ==> r == vars[name]
    ensures (name !in vars || vars[name] == "") ==> r == fallback
  {
    if name in vars && vars[name] != "" then vars[name] else fallback
  }

  /** `process.env.NAME === value`: an unset variable equals nothing. */
  predicate SettingIs(vars: Environment, name: string, value: string) {
    name in vars && vars[name] == value
  }

  datatype Config = Config(
    openaiApiKey: string,
    awsRegion: string,
    dynamoDbTableName: string,
    s3BucketName: string,
    nodeEnv: string,
    isProduction: bool,
    isDevelopment: bool,
    appUrl: string)

  const DefaultRegion: string := "us-east-1"
  const DefaultTable: string := "mathsage-sessions"
  const DefaultBucket: string := "mathsage-images-971422717446"
  const DefaultAppUrl: string := "http://localhost:3000"

  /** The `env` and `publicEnv` objects. */
  function ConfigOf(vars: Environment): Config {
    Config(
      Setting(vars, "OPENAI_API_KEY", ""),
      Setting(vars, "AWS_REGION", DefaultRegion),
      Setting(vars, "DYNAMODB_TABLE_NAME", DefaultTable),
      Setting(vars, "S3_BUCKET_NAME", DefaultBucket),
      Setting(vars, "NODE_ENV", "development"),
      SettingIs(vars, "NODE_ENV", "production"),
      SettingIs(vars, "NODE_ENV", "development"),
      Setting(vars, "NEXT_PUBLIC_APP_URL", DefaultAppUrl))
  }

  /** The names of the required settings that are empty, in the order OPENAI_API_KEY, DYNAMODB_TABLE_NAME, S3_BUCKET_NAME. */
  function MissingNames(c: Config): (r: seq<string>)
    ensures "OPENAI_API_KEY" in r <==> c.openaiApiKey == ""
    ensures "DYNAMODB_TABLE_NAME" in r <==> c.dynamoDbTableName == ""
    ensures "S3_BUCKET_NAME" in r <==> c.s3BucketName == ""
    ensures |r| <= 3
  {
    (if c.openaiApiKey == "" then ["OPENAI_API_KEY"] else [])
    + (if c.dynamoDbTableName == "" then ["DYNAMODB_TABLE_NAME"] else [])
    + (if c.s3BucketName == "" then ["S3_BUCKET_NAME"] else [])
  }

  datatype EnvCheck = Valid | Missing(message: string)

  function MissingMessage(names: seq<string>): string {
    "Missing required environment variables: " + Join(names, ", ") + "\nPlease check your .env.local file."
  }

  /** `validateEnv`: `true`, or the error listing the empty required settings. */
  function ValidateEnv(c: Config): (r: EnvCheck)
    ensures r.Valid? <==> c.openaiApiKey != "" && c.dynamoDbTableName != "" && c.s3BucketName != ""
    ensures r.Missing? ==> r.message == MissingMessage(MissingNames(c))
  {
    var missing := MissingNames(c);
    if |missing| > 0 then Missing(MissingMessage(missing)) else Valid
  }

  /**
   * The table and bucket settings have non-empty defaults, so the OpenAI key
   * is the only setting that can ever be reported missing.
   */
  lemma OnlyOpenAIKeyCanBeMissing(vars: Environment)
    ensures MissingNames(ConfigOf(vars)) == (if Setting(vars, "OPENAI_API_KEY", "") == "" then ["OPENAI_API_KEY"] else [])
    ensures ValidateEnv(ConfigOf(vars)).Valid? <==> "OPENAI_API_KEY" in vars && vars["OPENAI_API_KEY"] != ""
  {
  }

  /**
   * With NODE_ENV unset the node environment reads 'development' while
   * `isDevelopment` is false; the two flags are never both set.
   */
  lemma DevelopmentFlagQuirk(vars: Environment)
    ensures "NODE_ENV" !in vars ==> ConfigOf(vars).nodeEnv == "development" && !ConfigOf(vars).isDevelopment
    ensures !(ConfigOf(vars).isProduction && ConfigOf(vars).isDevelopment)
    ensures ConfigOf(vars).isDevelopment ==> ConfigOf(vars).nodeEnv == "development"
    ensures ConfigOf(vars).isProduction ==> ConfigOf(vars).nodeEnv == "production"
  {
  }

  datatype AwsConfig = AwsConfig(region: string)

  /** `getAwsConfig`: only the region; credentials come from the AWS SDK's own chain. */
  function GetAwsConfig(c: Config): (r: AwsConfig)
    ensures r.region == c.awsRegion
  {
    AwsConfig(c.awsRegion)
  }

  /** The region, and hence the AWS configuration, is never empty. */
  lemma RegionNeverEmpty(vars: Environment)
    ensures GetAwsConfig(ConfigOf(vars)).region != ""
    ensures "AWS_REGION" !in vars ==> GetAwsConfig(ConfigOf(vars)).region == DefaultRegion
  {
  }
}
