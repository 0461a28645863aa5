/** The founder row of the relational store, as the enrichment path sees it:
    a `Partial<Founder>` in which every column may be absent. Field names are
    the store's snake_case columns in camelCase. */
module Records {
  import opened Wrappers

  datatype Founder = Founder(
    id: Option<string>,
    firstName: Option<string>,
    lastName: Option<string>,
    email: Option<string>,
    linkedinUrl: Option<string>,
    city: Option<string>,
    state: Option<string>,
    country: Option<string>,
    bio: Option<string>,
    createdAt: Option<string>,
    updatedAt: Option<string>)
}
