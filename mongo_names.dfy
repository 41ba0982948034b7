/**
  The options of a MongoDB store and the database and collection names
  derived from them (`MongoDbStoreBase.Database` and `GetCollection`).
 */
module MongoDbNames {
  import opened Wrappers
  import opened Text

  /** How the documents of different tenants are kept apart. */
  datatype MultiTenancyHandling = TenantDatabase | TenantCollection | TenantField

  /** `MongoDbOptions`. A null `TenantId` is `None`. */
  datatype MongoDbOptions = MongoDbOptions(
    connectionString: string,
    databaseName: string,
    tenantDatabaseFormat: string,
    tenantCollectionFormat: string,
    multiTenantHandling: MultiTenancyHandling,
    tenantId: Option<string>,
    tenantField: string)

  const DatabasePlaceholder: string := "{database}"
  const CollectionPlaceholder: string := "{collection}"
  const TenantPlaceholder: string := "{tenant}"

  /** The text put in place of `{tenant}`: `String.Replace` with a null new value removes the old value. */
  function TenantText(options: MongoDbOptions): string {
    options.tenantId.GetOr("")
  }

  /**
    The name a template yields: every `placeholder` replaced by `name`,
    then, in that result, every `{tenant}` replaced by the tenant text.
   */
  function Substitute(template: string, placeholder: string, name: string, tenant: string): string
    requires placeholder != []
  {
    ReplaceAll(ReplaceAll(template, placeholder, name), TenantPlaceholder, tenant)
  }

  /**
    The name of the database the store opens (`Database`): the configured
    name, except in the tenant-database mode, where it comes from the
    tenant database format.
   */
  function DatabaseName(options: MongoDbOptions): (name: string)
    ensures options.multiTenantHandling != TenantDatabase ==> name == options.databaseName
    ensures options.multiTenantHandling == TenantDatabase
            && !Contains(options.tenantDatabaseFormat, DatabasePlaceholder)
            && !Contains(options.tenantDatabaseFormat, TenantPlaceholder)
            ==> name == options.tenantDatabaseFormat
  {
    if options.multiTenantHandling == TenantDatabase then
      var format := options.tenantDatabaseFormat;
      LiteralTemplateKept(format, DatabasePlaceholder, options.databaseName, TenantText(options));
      Substitute(format, DatabasePlaceholder, options.databaseName, TenantText(options))
    else
      options.databaseName
  }

  /**
    The name of the collection the store opens for `collectionName`
    (`GetCollection`): the name asked for, except in the tenant-collection
    mode, where it comes from the tenant collection format.
   */
  function CollectionName(options: MongoDbOptions, collectionName: string): (name: string)
    ensures options.multiTenantHandling != TenantCollection ==> name == collectionName
    ensures options.multiTenantHandling == TenantCollection
            && !Contains(options.tenantCollectionFormat, CollectionPlaceholder)
            && !Contains(options.tenantCollectionFormat, TenantPlaceholder)
            ==> name == options.tenantCollectionFormat
  {
    if options.multiTenantHandling == TenantCollection then
      var format := options.tenantCollectionFormat;
      LiteralTemplateKept(format, CollectionPlaceholder, collectionName, TenantText(options));
      Substitute(format, CollectionPlaceholder, collectionName, TenantText(options))
    else
      collectionName
  }

  /** Where a store's documents live: a database and a collection in it. */
  datatype CollectionNamespace = CollectionNamespace(database: string, collection: string)

  /**
    The namespace the store's documents live in. Each tenancy mode changes
    one name at most: the tenant-database mode only the database, the
    tenant-collection mode only the collection, the tenant-field mode
    neither.
   */
  function GetCollection(options: MongoDbOptions, collectionName: string): (ns: CollectionNamespace)
    ensures options.multiTenantHandling != TenantDatabase ==> ns.database == options.databaseName
    ensures options.multiTenantHandling != TenantCollection ==> ns.collection == collectionName
    ensures options.multiTenantHandling == TenantField
            ==> ns == CollectionNamespace(options.databaseName, collectionName)
  {
    CollectionNamespace(DatabaseName(options), CollectionName(options, collectionName))
  }

  /** A template that is just the placeholder yields the name, with its own `{tenant}`s substituted too. */
  lemma SubstituteBarePlaceholder(placeholder: string, name: string, tenant: string)
    requires placeholder != []
    ensures Substitute(placeholder, placeholder, name, tenant) == ReplaceAll(name, TenantPlaceholder, tenant)
  {
    ReplaceWhole(placeholder, name);
  }

  /** A template mentioning neither placeholder is the name, verbatim. */
  lemma SubstituteLiteralTemplate(template: string, placeholder: string, name: string, tenant: string)
    requires placeholder != []
    requires !Contains(template, placeholder) && !Contains(template, TenantPlaceholder)
    ensures Substitute(template, placeholder, name, tenant) == template
  {
    ReplaceAllWithoutOccurrence(template, placeholder, name);
    ReplaceAllWithoutOccurrence(template, TenantPlaceholder, tenant);
  }

  /** Whatever the template, if it mentions neither placeholder it is kept verbatim. */
  lemma LiteralTemplateKept(template: string, placeholder: string, name: string, tenant: string)
    requires placeholder != []
    ensures !Contains(template, placeholder) && !Contains(template, TenantPlaceholder)
            ==> Substitute(template, placeholder, name, tenant) == template
  {
    if !Contains(template, placeholder) && !Contains(template, TenantPlaceholder) {
      SubstituteLiteralTemplate(template, placeholder, name, tenant);
    }
  }

  /**
    A template `prefix + placeholder + suffix`, where no placeholder starts
    inside the prefix and none occurs in the suffix, yields the prefix, the
    name and the suffix, before the tenant substitution.
   */
  lemma SubstituteSingleSlot(prefix: string, suffix: string, placeholder: string, name: string, tenant: string)
    requires placeholder != []
    requires forall i: nat :: i < |prefix| ==> !OccursAt(prefix + placeholder + suffix, placeholder, i)
    requires !Contains(suffix, placeholder)
    ensures Substitute(prefix + placeholder + suffix, placeholder, name, tenant)
         == ReplaceAll(prefix + name + suffix, TenantPlaceholder, tenant)
  {
    assert prefix + placeholder + suffix == prefix + (placeholder + suffix);
    ReplaceAllAfterFreePrefix(prefix, placeholder + suffix, placeholder, name);
    LeadingOccurrence(placeholder, suffix, name);
    ReplaceAllWithoutOccurrence(suffix, placeholder, name);
    assert prefix + (name + suffix) == prefix + name + suffix;
  }

  /**
    In the tenant-database mode with the format `{database}`, the database
    name is the configured one with its own `{tenant}`s substituted.
   */
  lemma TenantInsideDatabaseNameSubstituted(options: MongoDbOptions)
    requires options.multiTenantHandling == TenantDatabase
    requires options.tenantDatabaseFormat == DatabasePlaceholder
    ensures DatabaseName(options) == ReplaceAll(options.databaseName, TenantPlaceholder, TenantText(options))
  {
    SubstituteBarePlaceholder(DatabasePlaceholder, options.databaseName, TenantText(options));
  }

  /**
    A tenant placeholder appended to a string without one, after a `_`,
    is the only occurrence: `{tenant}` holds no `_`, so no occurrence can
    straddle the boundary.
   */
  lemma TenantPlaceholderOnlyAtEnd(text: string)
    requires |text| > 0 && text[|text| - 1] == '_'
    requires !Contains(text, TenantPlaceholder)
    ensures forall i: nat :: i < |text| ==> !OccursAt(text + TenantPlaceholder, TenantPlaceholder, i)
  {
    var w := text + TenantPlaceholder;
    forall i: nat | i < |text| ensures !OccursAt(w, TenantPlaceholder, i) {
      if i + |TenantPlaceholder| <= |text| {
        assert text[i..i + |TenantPlaceholder|] == w[i..i + |TenantPlaceholder|];
        assert !OccursAt(text, TenantPlaceholder, i);
      } else {
        var k := |text| - 1 - i;
        assert w[i..i + |TenantPlaceholder|][k] == '_';
        assert TenantPlaceholder[k] != '_';
      }
    }
  }

  /**
    A template that is a placeholder longer than `_{tenant}` followed by
    `_{tenant}` puts the name where the placeholder was.
   */
  lemma SlotBeforeTenantSuffix(placeholder: string, name: string)
    requires |placeholder| > |"_" + TenantPlaceholder|
    ensures ReplaceAll(placeholder + ("_" + TenantPlaceholder), placeholder, name) == name + ("_" + TenantPlaceholder)
  {
    var suffix := "_" + TenantPlaceholder;
    LeadingOccurrence(placeholder, suffix, name);
    // The placeholder is longer than the suffix, so it cannot occur in it.
    ReplaceAllWithoutOccurrence(suffix, placeholder, name);
  }

  /**
    `<text>_{tenant}` with no `{tenant}` in `<text>_` becomes
    `<text>_<tenant>`.
   */
  lemma TenantSuffixSubstituted(text: string, tenant: string)
    requires !Contains(text + "_", TenantPlaceholder)
    ensures ReplaceAll(text + ("_" + TenantPlaceholder), TenantPlaceholder, tenant) == text + "_" + tenant
  {
    var head := text + "_";
    assert text + ("_" + TenantPlaceholder) == head + TenantPlaceholder;
    TenantPlaceholderOnlyAtEnd(head);
    ReplaceAllAfterFreePrefix(head, TenantPlaceholder, TenantPlaceholder, tenant);
    ReplaceWhole(TenantPlaceholder, tenant);
  }

  /**
    The template `<placeholder>_{tenant}`, for the database or the
    collection placeholder, yields `<name>_<tenant>` when `<name>_` holds no
    `{tenant}`.
   */
  lemma SubstituteSlotAndTenant(placeholder: string, name: string, tenant: string)
    requires |placeholder| > |"_" + TenantPlaceholder|
    requires !Contains(name + "_", TenantPlaceholder)
    ensures Substitute(placeholder + "_" + TenantPlaceholder, placeholder, name, tenant) == name + "_" + tenant
  {
    assert placeholder + "_" + TenantPlaceholder == placeholder + ("_" + TenantPlaceholder);
    SlotBeforeTenantSuffix(placeholder, name);
    TenantSuffixSubstituted(name, tenant);
  }

  /**
    In the tenant-database mode with the format `{database}_{tenant}` and a
    database name without `{tenant}` in it, the database name is
    `<database>_<tenant>`; a null tenant leaves `<database>_`.
   */
  lemma TenantDatabaseNameFromTemplate(options: MongoDbOptions)
    requires options.multiTenantHandling == TenantDatabase
    requires options.tenantDatabaseFormat == DatabasePlaceholder + "_" + TenantPlaceholder
    requires !Contains(options.databaseName + "_", TenantPlaceholder)
    ensures DatabaseName(options) == options.databaseName + "_" + TenantText(options)
  {
    SubstituteSlotAndTenant(DatabasePlaceholder, options.databaseName, TenantText(options));
  }

  /**
    In the tenant-collection mode with the format `{collection}_{tenant}`
    and a collection name without `{tenant}` in it, the collection name is
    `<collection>_<tenant>`, and the database is the configured one.
   */
  lemma TenantCollectionNameFromTemplate(options: MongoDbOptions, collectionName: string)
    requires options.multiTenantHandling == TenantCollection
    requires options.tenantCollectionFormat == CollectionPlaceholder + "_" + TenantPlaceholder
    requires !Contains(collectionName + "_", TenantPlaceholder)
    ensures GetCollection(options, collectionName)
         == CollectionNamespace(options.databaseName, collectionName + "_" + TenantText(options))
  {
    SubstituteSlotAndTenant(CollectionPlaceholder, collectionName, TenantText(options));
  }

  /**
    In the tenant-collection mode with the format `{collection}`, the
    collection name has its own `{tenant}`s substituted.
   */
  lemma TenantInsideCollectionNameSubstituted(options: MongoDbOptions, collectionName: string)
    requires options.multiTenantHandling == TenantCollection
    requires options.tenantCollectionFormat == CollectionPlaceholder
    ensures CollectionName(options, collectionName) == ReplaceAll(collectionName, TenantPlaceholder, TenantText(options))
  {
    SubstituteBarePlaceholder(CollectionPlaceholder, collectionName, TenantText(options));
  }
}
