/**
 * `EnvironmentConfigReader` (`packages/cdk-utils/src/config/environment-config.ts`):
 * per-environment deployment settings from defaults, partial overrides,
 * the CDK context and environment variables.
 *
 * An optional property is an `Option`; a property holding `undefined` is
 * treated as absent. Object spread `{...a, ...b}` is a field-wise choice of
 * `b`'s field when present, else `a`'s. The CDK context lookup is an
 * `Option` argument and the process environment a map argument.
 */
module EnvironmentConfigReader {
  import opened Wrappers
  import opened Text
  import opened Naming

  datatype VpcConfig = VpcConfig(
    vpcId: Option<string>,
    subnetIds: Option<seq<string>>,
    securityGroupIds: Option<seq<string>>,
    enableNatGateway: Option<bool>,
    enableVpcEndpoints: Option<bool>)

  datatype Engine = Postgres | Mysql | Dynamodb

  datatype DatabaseConfig = DatabaseConfig(
    engine: Engine,
    instanceClass: Option<string>,
    allocatedStorage: Option<int>,
    multiAz: Option<bool>,
    backupRetentionPeriod: Option<int>,
    deletionProtection: Option<bool>)

  datatype MonitoringConfig = MonitoringConfig(
    enableCloudWatch: Option<bool>,
    enableXRay: Option<bool>,
    logRetentionDays: Option<int>,
    alarmEmail: Option<string>)

  datatype SecurityConfig = SecurityConfig(
    enableWaf: Option<bool>,
    enableGuardDuty: Option<bool>,
    enableSecurityHub: Option<bool>,
    allowedCidrs: Option<seq<string>>)

  datatype EnvironmentConfig = EnvironmentConfig(
    environment: string,
    region: string,
    account: string,
    project: string,
    domain: Option<string>,
    certificateArn: Option<string>,
    hostedZoneId: Option<string>,
    vpc: Option<VpcConfig>,
    database: Option<DatabaseConfig>,
    monitoring: Option<MonitoringConfig>,
    security: Option<SecurityConfig>)

  /** `Partial<EnvironmentConfig>`: every top-level property optional. */
  datatype PartialConfig = PartialConfig(
    environment: Option<string>,
    region: Option<string>,
    account: Option<string>,
    project: Option<string>,
    domain: Option<string>,
    certificateArn: Option<string>,
    hostedZoneId: Option<string>,
    vpc: Option<VpcConfig>,
    database: Option<DatabaseConfig>,
    monitoring: Option<MonitoringConfig>,
    security: Option<SecurityConfig>)

  const DefaultRegion := "us-east-1"
  const DefaultProject := "rankiro"

  // ---------------------------------------------------------------------------
  // getDefaultConfig
  // ---------------------------------------------------------------------------

  /** The settings profiles `getDefaultConfig` knows. */
  datatype Profile = Development | Staging | Production | Unknown

  /** The case-insensitive `switch` of `getDefaultConfig`. */
  function ProfileOf(environment: string): (p: Profile)
    ensures p == Development <==> IsDevelopment(environment)
    ensures p == Staging <==> IsStaging(environment)
    ensures p == Production <==> IsProduction(environment)
  {
    var e := Lower(environment);
    if e == "dev" || e == "development" then Development
    else if e == "staging" || e == "stage" then Staging
    else if e == "prod" || e == "production" then Production
    else Unknown
  }

  /** The base configuration every profile starts from. */
  function BaseConfig(environment: string): EnvironmentConfig {
    EnvironmentConfig(environment, DefaultRegion, "", DefaultProject, None, None, None, None, None, None, None)
  }

  /** `getDefaultConfig`: the base configuration plus the profile's database, monitoring and security settings. */
  function GetDefaultConfig(environment: string): (r: EnvironmentConfig)
    ensures r.environment == environment && r.region == DefaultRegion && r.account == "" && r.project == DefaultProject
    ensures r.domain.None? && r.certificateArn.None? && r.hostedZoneId.None? && r.vpc.None?
    ensures r.database.Some? <==> ProfileOf(environment) != Unknown
    ensures r.monitoring.Some? <==> ProfileOf(environment) != Unknown
    ensures r.security.Some? <==> ProfileOf(environment) != Unknown
    ensures r.database.Some? ==> r.database.value.engine == Postgres
    ensures r.database.Some? ==> r.database.value.deletionProtection == Some(IsProduction(environment))
    ensures r.database.Some? ==> r.database.value.multiAz == Some(IsProduction(environment))
    ensures r.security.Some? ==> r.security.value.enableGuardDuty == Some(IsProduction(environment))
    ensures r.security.Some? ==> r.security.value.enableWaf == Some(!IsDevelopment(environment))
    ensures r.database.Some? ==>
      r.database.value.instanceClass == Some(if IsDevelopment(environment) then "t3.micro"
                                             else if IsStaging(environment) then "t3.small" else "t3.medium")
  {
    var base := BaseConfig(environment);
    match ProfileOf(environment)
    case Development =>
      base.(database := Some(DatabaseConfig(Postgres, Some("t3.micro"), Some(20), Some(false), Some(7), Some(false))),
            monitoring := Some(MonitoringConfig(Some(true), Some(false), Some(7), None)),
            security := Some(SecurityConfig(Some(false), Some(false), Some(false), None)))
    case Staging =>
      base.(database := Some(DatabaseConfig(Postgres, Some("t3.small"), Some(50), Some(false), Some(14), Some(false))),
            monitoring := Some(MonitoringConfig(Some(true), Some(true), Some(30), None)),
            security := Some(SecurityConfig(Some(true), Some(false), Some(false), None)))
    case Production =>
      base.(database := Some(DatabaseConfig(Postgres, Some("t3.medium"), Some(100), Some(true), Some(30), Some(true))),
            monitoring := Some(MonitoringConfig(Some(true), Some(true), Some(90), None)),
            security := Some(SecurityConfig(Some(true), Some(true), Some(true), None)))
    case Unknown => base
  }

  /** Instance class, backup retention and log retention grow from development to staging to production. */
  lemma ProfilesScaleUp()
    ensures GetDefaultConfig("dev").database.value.instanceClass == Some("t3.micro")
    ensures GetDefaultConfig("staging").database.value.instanceClass == Some("t3.small")
    ensures GetDefaultConfig("prod").database.value.instanceClass == Some("t3.medium")
    ensures GetDefaultConfig("dev").database.value.backupRetentionPeriod.value
          < GetDefaultConfig("staging").database.value.backupRetentionPeriod.value
          < GetDefaultConfig("prod").database.value.backupRetentionPeriod.value
    ensures GetDefaultConfig("dev").monitoring.value.logRetentionDays.value
          < GetDefaultConfig("staging").monitoring.value.logRetentionDays.value
          < GetDefaultConfig("prod").monitoring.value.logRetentionDays.value
  {
    assert Lower("dev") == "dev";
    assert Lower("staging") == "staging";
    assert Lower("prod") == "prod";
  }

  /** Names are classified without regard to case. */
  lemma DefaultsIgnoreCase(environment: string)
    ensures GetDefaultConfig(Lower(environment)) == GetDefaultConfig(environment).(environment := Lower(environment))
  {
    ClassesIgnoreCase(environment);
    assert ProfileOf(Lower(environment)) == ProfileOf(environment);
  }

  // ---------------------------------------------------------------------------
  // mergeWithDefaults
  // ---------------------------------------------------------------------------

  /** One property of a spread `{...base, ...over}`: `over`'s when present, else `base`'s. */
  function Pick<T>(over: Option<T>, base: Option<T>): (r: Option<T>)
    ensures r.Some? <==> over.Some? || base.Some?
    ensures over.Some? ==> r == over
    ensures over.None? ==> r == base
  {
    if over.Some? then over else base
  }

  /** `{ ...base, ...over }` for a VPC block; an absent base contributes nothing. */
  function MergeVpc(base: Option<VpcConfig>, over: VpcConfig): (r: VpcConfig)
    ensures base.None? ==> r == over
    ensures base.Some? ==>
      && r.vpcId == Pick(over.vpcId, base.value.vpcId)
      && r.subnetIds == Pick(over.subnetIds, base.value.subnetIds)
      && r.securityGroupIds == Pick(over.securityGroupIds, base.value.securityGroupIds)
      && r.enableNatGateway == Pick(over.enableNatGateway, base.value.enableNatGateway)
      && r.enableVpcEndpoints == Pick(over.enableVpcEndpoints, base.value.enableVpcEndpoints)
  {
    match base
    case None => over
    case Some(b) =>
      VpcConfig(Pick(over.vpcId, b.vpcId), Pick(over.subnetIds, b.subnetIds), Pick(over.securityGroupIds, b.securityGroupIds),
                Pick(over.enableNatGateway, b.enableNatGateway), Pick(over.enableVpcEndpoints, b.enableVpcEndpoints))
  }

  /** `{ ...base, ...over }` for a database block; `over` always carries the engine, so its engine wins. */
  function MergeDatabase(base: Option<DatabaseConfig>, over: DatabaseConfig): (r: DatabaseConfig)
    ensures r.engine == over.engine
    ensures base.None? ==> r == over
    ensures base.Some? ==>
      && r.instanceClass == Pick(over.instanceClass, base.value.instanceClass)
      && r.allocatedStorage == Pick(over.allocatedStorage, base.value.allocatedStorage)
      && r.multiAz == Pick(over.multiAz, base.value.multiAz)
      && r.backupRetentionPeriod == Pick(over.backupRetentionPeriod, base.value.backupRetentionPeriod)
      && r.deletionProtection == Pick(over.deletionProtection, base.value.deletionProtection)
  {
    match base
    case None => over
    case Some(b) =>
      DatabaseConfig(over.engine, Pick(over.instanceClass, b.instanceClass), Pick(over.allocatedStorage, b.allocatedStorage),
                     Pick(over.multiAz, b.multiAz), Pick(over.backupRetentionPeriod, b.backupRetentionPeriod),
                     Pick(over.deletionProtection, b.deletionProtection))
  }

  /** `{ ...base, ...over }` for a monitoring block. */
  function MergeMonitoring(base: Option<MonitoringConfig>, over: MonitoringConfig): (r: MonitoringConfig)
    ensures base.None? ==> r == over
    ensures base.Some? ==>
      && r.enableCloudWatch == Pick(over.enableCloudWatch, base.value.enableCloudWatch)
      && r.enableXRay == Pick(over.enableXRay, base.value.enableXRay)
      && r.logRetentionDays == Pick(over.logRetentionDays, base.value.logRetentionDays)
      && r.alarmEmail == Pick(over.alarmEmail, base.value.alarmEmail)
  {
    match base
    case None => over
    case Some(b) =>
      MonitoringConfig(Pick(over.enableCloudWatch, b.enableCloudWatch), Pick(over.enableXRay, b.enableXRay),
                       Pick(over.logRetentionDays, b.logRetentionDays), Pick(over.alarmEmail, b.alarmEmail))
  }

  /** `{ ...base, ...over }` for a security block. */
  function MergeSecurity(base: Option<SecurityConfig>, over: SecurityConfig): (r: SecurityConfig)
    ensures base.None? ==> r == over
    ensures base.Some? ==>
      && r.enableWaf == Pick(over.enableWaf, base.value.enableWaf)
      && r.enableGuardDuty == Pick(over.enableGuardDuty, base.value.enableGuardDuty)
      && r.enableSecurityHub == Pick(over.enableSecurityHub, base.value.enableSecurityHub)
      && r.allowedCidrs == Pick(over.allowedCidrs, base.value.allowedCidrs)
  {
    match base
    case None => over
    case Some(b) =>
      SecurityConfig(Pick(over.enableWaf, b.enableWaf), Pick(over.enableGuardDuty, b.enableGuardDuty),
                     Pick(over.enableSecurityHub, b.enableSecurityHub), Pick(over.allowedCidrs, b.allowedCidrs))
  }

  /** A nested block of the result: merged when the partial has one, the default's otherwise. */
  function MergeBlock<T>(over: Option<T>, base: Option<T>, merge: (Option<T>, T) -> T): (r: Option<T>)
    ensures over.None? ==> r == base
    ensures over.Some? ==> r == Some(merge(base, over.value))
  {
    if over.Some? then Some(merge(base, over.value)) else base
  }

  /**
   * `mergeWithDefaults`: the defaults of `environment`, overridden property
   * by property by `config`, the four nested blocks merged one level deep,
   * and `environment` always the parameter.
   */
  function MergeWithDefaults(config: PartialConfig, environment: string): (r: EnvironmentConfig)
    ensures r.environment == environment
    ensures r.region == config.region.GetOr(DefaultRegion)
    ensures r.account == config.account.GetOr("")
    ensures r.project == config.project.GetOr(DefaultProject)
    ensures r.domain == config.domain && r.certificateArn == config.certificateArn && r.hostedZoneId == config.hostedZoneId
    ensures config.database.Some? ==> r.database.Some? && r.database.value.engine == config.database.value.engine
    ensures config.database.Some? ==> r.database == Some(MergeDatabase(GetDefaultConfig(environment).database, config.database.value))
    ensures config.monitoring.Some? ==> r.monitoring == Some(MergeMonitoring(GetDefaultConfig(environment).monitoring, config.monitoring.value))
    ensures config.security.Some? ==> r.security == Some(MergeSecurity(GetDefaultConfig(environment).security, config.security.value))
    ensures config.database.None? ==> r.database == GetDefaultConfig(environment).database
    ensures config.monitoring.None? ==> r.monitoring == GetDefaultConfig(environment).monitoring
    ensures config.security.None? ==> r.security == GetDefaultConfig(environment).security
    ensures r.vpc == config.vpc
  {
    var d := GetDefaultConfig(environment);
    EnvironmentConfig(
      environment,
      Pick(config.region, Some(d.region)).value,
      Pick(config.account, Some(d.account)).value,
      Pick(config.project, Some(d.project)).value,
      Pick(config.domain, d.domain),
      Pick(config.certificateArn, d.certificateArn),
      Pick(config.hostedZoneId, d.hostedZoneId),
      MergeBlock(config.vpc, d.vpc, MergeVpc),
      MergeBlock(config.database, d.database, MergeDatabase),
      MergeBlock(config.monitoring, d.monitoring, MergeMonitoring),
      MergeBlock(config.security, d.security, MergeSecurity))
  }

  /** Every property present, as a partial configuration. */
  function ToPartial(c: EnvironmentConfig): PartialConfig {
    PartialConfig(Some(c.environment), Some(c.region), Some(c.account), Some(c.project), c.domain, c.certificateArn,
                  c.hostedZoneId, c.vpc, c.database, c.monitoring, c.security)
  }

  /** The empty partial configuration, `{}`. */
  function EmptyPartial(): PartialConfig {
    PartialConfig(None, None, None, None, None, None, None, None, None, None, None)
  }

  /** Merging nothing yields the defaults. */
  lemma MergeEmptyIsDefault(environment: string)
    ensures MergeWithDefaults(EmptyPartial(), environment) == GetDefaultConfig(environment)
  {
  }

  /** Merging a full configuration over the defaults of its own environment gives it back. */
  lemma MergeOfDefaultsIsIdentity(environment: string)
    ensures MergeWithDefaults(ToPartial(GetDefaultConfig(environment)), environment) == GetDefaultConfig(environment)
  {
  }

  /** Merging is idempotent: merging a merged configuration again changes nothing. */
  lemma MergeIdempotent(config: PartialConfig, environment: string)
    ensures var r := MergeWithDefaults(config, environment);
      MergeWithDefaults(ToPartial(r), environment) == r
  {
    var d := GetDefaultConfig(environment);
    var r := MergeWithDefaults(config, environment);
    if r.database.Some? && d.database.Some? {
      if config.database.Some? {
        MergeDatabaseIdempotent(d.database.value, config.database.value);
      } else {
        MergeDatabaseIdempotent(d.database.value, d.database.value);
      }
    }
    if r.monitoring.Some? && d.monitoring.Some? {
      if config.monitoring.Some? {
        MergeMonitoringIdempotent(d.monitoring.value, config.monitoring.value);
      } else {
        MergeMonitoringIdempotent(d.monitoring.value, d.monitoring.value);
      }
    }
    if r.security.Some? && d.security.Some? {
      if config.security.Some? {
        MergeSecurityIdempotent(d.security.value, config.security.value);
      } else {
        MergeSecurityIdempotent(d.security.value, d.security.value);
      }
    }
  }

  lemma MergeDatabaseIdempotent(b: DatabaseConfig, o: DatabaseConfig)
    ensures MergeDatabase(Some(b), MergeDatabase(Some(b), o)) == MergeDatabase(Some(b), o)
  {
  }

  lemma MergeMonitoringIdempotent(b: MonitoringConfig, o: MonitoringConfig)
    ensures MergeMonitoring(Some(b), MergeMonitoring(Some(b), o)) == MergeMonitoring(Some(b), o)
  {
  }

  lemma MergeSecurityIdempotent(b: SecurityConfig, o: SecurityConfig)
    ensures MergeSecurity(Some(b), MergeSecurity(Some(b), o)) == MergeSecurity(Some(b), o)
  {
  }

  /** The merge scenarios of the test suite. */
  lemma MergeExamples()
    ensures var c := MergeWithDefaults(EmptyPartial().(region := Some("eu-west-1"), account := Some("123456789012"),
                                         database := Some(DatabaseConfig(Mysql, Some("t3.large"), None, None, None, None))), "dev");
      && c.region == "eu-west-1" && c.database.value.engine == Mysql
      && c.database.value.instanceClass == Some("t3.large") && c.database.value.multiAz == Some(false)
      && c.monitoring.value.enableCloudWatch == Some(true)
    ensures var c := MergeWithDefaults(EmptyPartial().(monitoring := Some(MonitoringConfig(None, Some(false), Some(14), None))), "prod");
      c.monitoring.value == MonitoringConfig(Some(true), Some(false), Some(14), None)
    ensures MergeWithDefaults(EmptyPartial().(environment := Some("should-be-overridden")), "staging").environment == "staging"
  {
    assert Lower("dev") == "dev";
    assert Lower("prod") == "prod";
  }

  // ---------------------------------------------------------------------------
  // fromContext / validateConfig
  // ---------------------------------------------------------------------------

  function NotFoundMessage(environment: string): string {
    "Environment configuration not found for: " + environment
  }

  function RegionMessage(environment: string): string {
    "Region is required for environment: " + environment
  }

  function AccountMessage(environment: string): string {
    "Account ID is required for environment: " + environment
  }

  /**
   * `validateConfig`: the region is checked first, the account second, and
   * a missing or empty project becomes the default. The result is
   * `{environment, ...config}`, so an `environment` property of the context
   * entry wins over the parameter; nothing else is filled in.
   */
  function ValidateConfig(config: PartialConfig, environment: string): (r: Result<EnvironmentConfig, string>)
    ensures !Truthy(config.region) ==> r == Failure(RegionMessage(environment))
    ensures Truthy(config.region) && !Truthy(config.account) ==> r == Failure(AccountMessage(environment))
    ensures r.Success? <==> Truthy(config.region) && Truthy(config.account)
    ensures r.Success? ==>
      && r.value.environment == config.environment.GetOr(environment)
      && Some(r.value.region) == config.region && Some(r.value.account) == config.account
      && |r.value.project| > 0
      && (Truthy(config.project) ==> Some(r.value.project) == config.project)
      && (!Truthy(config.project) ==> r.value.project == DefaultProject)
      && r.value.domain == config.domain && r.value.certificateArn == config.certificateArn
      && r.value.hostedZoneId == config.hostedZoneId
      && r.value.database == config.database && r.value.vpc == config.vpc
      && r.value.monitoring == config.monitoring && r.value.security == config.security
  {
    if !Truthy(config.region) then Failure(RegionMessage(environment))
    else if !Truthy(config.account) then Failure(AccountMessage(environment))
    else
      var project := if Truthy(config.project) then config.project.value else DefaultProject;
      Success(EnvironmentConfig(
        config.environment.GetOr(environment), config.region.value, config.account.value, project,
        config.domain, config.certificateArn, config.hostedZoneId,
        config.vpc, config.database, config.monitoring, config.security))
  }

  /** `fromContext`: the entry `environments.<environment>` of the CDK context, validated; a missing entry is an error. */
  function FromContext(context: Option<PartialConfig>, environment: string): (r: Result<EnvironmentConfig, string>)
    ensures context.None? ==> r == Failure(NotFoundMessage(environment))
    ensures context.Some? ==> r == ValidateConfig(context.value, environment)
  {
    match context
    case None => Failure(NotFoundMessage(environment))
    case Some(config) => ValidateConfig(config, environment)
  }

  /** The context scenarios of the test suite. */
  lemma ContextExamples()
    ensures FromContext(None, "missing") == Failure("Environment configuration not found for: missing")
    ensures FromContext(Some(EmptyPartial().(project := Some("test"))), "invalid")
         == Failure("Region is required for environment: invalid")
    ensures FromContext(Some(EmptyPartial().(region := Some("us-east-1"), account := Some("123456789012"))), "test").value.project
         == "rankiro"
    ensures FromContext(Some(EmptyPartial().(region := Some("ap-southeast-1"), account := Some("555666777888"),
                                            project := Some("context-project"), domain := Some("context.example.com"))), "test")
         == Success(EnvironmentConfig("test", "ap-southeast-1", "555666777888", "context-project", Some("context.example.com"),
                                      None, None, None, None, None, None))
  {
    assert NotFoundMessage("missing") == "Environment configuration not found for: missing";
    assert RegionMessage("invalid") == "Region is required for environment: invalid";
  }

  // ---------------------------------------------------------------------------
  // fromEnvironmentVariables
  // ---------------------------------------------------------------------------

  const MissingAccountMessage := "AWS account ID must be provided via AWS_ACCOUNT_ID or CDK_DEFAULT_ACCOUNT"

  function Lookup(vars: map<string, string>, name: string): Option<string> {
    if name in vars then Some(vars[name]) else None
  }

  /** `a || fallback` on an optional string: the value when truthy, else the fallback. */
  function OrElse(a: Option<string>, fallback: string): (r: string)
    ensures Truthy(a) ==> r == a.value
    ensures !Truthy(a) ==> r == fallback
  {
    if Truthy(a) then a.value else fallback
  }

  /**
   * `fromEnvironmentVariables`: region, account and project from the first
   * non-empty variable of their fallback chains, domain, certificate and
   * hosted zone as set; an empty account is an error.
   */
  function FromEnvironmentVariables(vars: map<string, string>, environment: string): (r: Result<EnvironmentConfig, string>)
    ensures r.Success? <==> Truthy(Lookup(vars, "AWS_ACCOUNT_ID")) || Truthy(Lookup(vars, "CDK_DEFAULT_ACCOUNT"))
    ensures r.Failure? ==> r.error == MissingAccountMessage
    ensures r.Success? ==>
      && r.value.environment == environment
      && |r.value.region| > 0 && |r.value.account| > 0 && |r.value.project| > 0
      && (Truthy(Lookup(vars, "AWS_REGION")) ==> r.value.region == vars["AWS_REGION"])
      && (!Truthy(Lookup(vars, "AWS_REGION")) && Truthy(Lookup(vars, "CDK_DEFAULT_REGION"))
          ==> r.value.region == vars["CDK_DEFAULT_REGION"])
      && (!Truthy(Lookup(vars, "AWS_REGION")) && !Truthy(Lookup(vars, "CDK_DEFAULT_REGION")) ==> r.value.region == DefaultRegion)
      && (Truthy(Lookup(vars, "AWS_ACCOUNT_ID")) ==> r.value.account == vars["AWS_ACCOUNT_ID"])
      && (!Truthy(Lookup(vars, "AWS_ACCOUNT_ID")) ==> r.value.account == vars["CDK_DEFAULT_ACCOUNT"])
      && (Truthy(Lookup(vars, "PROJECT_NAME")) ==> r.value.project == vars["PROJECT_NAME"])
      && (!Truthy(Lookup(vars, "PROJECT_NAME")) ==> r.value.project == DefaultProject)
      && r.value.domain == Lookup(vars, "DOMAIN_NAME")
      && r.value.certificateArn == Lookup(vars, "CERTIFICATE_ARN")
      && r.value.hostedZoneId == Lookup(vars, "HOSTED_ZONE_ID")
      && r.value.vpc.None? && r.value.database.None?
      && r.value.monitoring.None? && r.value.security.None?
  {
    var region := OrElse(Lookup(vars, "AWS_REGION"), OrElse(Lookup(vars, "CDK_DEFAULT_REGION"), DefaultRegion));
    var account := OrElse(Lookup(vars, "AWS_ACCOUNT_ID"), OrElse(Lookup(vars, "CDK_DEFAULT_ACCOUNT"), ""));
    var project := OrElse(Lookup(vars, "PROJECT_NAME"), DefaultProject);
    if account == "" then Failure(MissingAccountMessage)
    else Success(EnvironmentConfig(environment, region, account, project,
                                   Lookup(vars, "DOMAIN_NAME"), Lookup(vars, "CERTIFICATE_ARN"), Lookup(vars, "HOSTED_ZONE_ID"),
                                   None, None, None, None))
  }

  /** The environment-variable scenarios of the test suite. */
  lemma EnvironmentVariableExamples()
    ensures FromEnvironmentVariables(map["AWS_REGION" := "us-west-2", "AWS_ACCOUNT_ID" := "123456789012",
                                         "PROJECT_NAME" := "test-project", "DOMAIN_NAME" := "example.com"], "dev")
         == Success(EnvironmentConfig("dev", "us-west-2", "123456789012", "test-project", Some("example.com"),
                                      None, None, None, None, None, None))
    ensures var r := FromEnvironmentVariables(map["CDK_DEFAULT_REGION" := "eu-west-1", "CDK_DEFAULT_ACCOUNT" := "987654321098"], "prod");
      r.Success? && r.value.region == "eu-west-1" && r.value.account == "987654321098"
    ensures var r := FromEnvironmentVariables(map["AWS_ACCOUNT_ID" := "123456789012"], "staging");
      r.Success? && r.value.region == "us-east-1" && r.value.project == "rankiro"
    ensures FromEnvironmentVariables(map[], "dev") == Failure(MissingAccountMessage)
    ensures FromEnvironmentVariables(map["AWS_ACCOUNT_ID" := ""], "dev") == Failure(MissingAccountMessage)
  {
  }
}
