/** `connect_social_media_account_with_keyword_arguments`. */
module Linking {
  import opened Text
  import opened Platforms
  import opened Schema
  import opened Auth

  /** The keyword arguments `age` and `city`: echoed to the console, never stored. */
  datatype Extras = Extras(age: string, city: string)

  /**
   * Validate the platform (case-insensitively), then the account name, and
   * insert one row holding the lower-cased platform. A driver error,
   * including a violated foreign key, rolls the insert back.
   */
  function Connect(s: Store, user: Session, platform: string, accountName: string, extras: Extras, fault: bool)
    : (o: Outcome)
    ensures !IsValidPlatform(platform) ==> o == Outcome(s, InvalidPlatform)
    ensures IsValidPlatform(platform) && accountName == "" ==> o == Outcome(s, MissingAccountName)
    ensures o.status == Done <==>
              IsValidPlatform(platform) && accountName != "" && !fault && IsUserId(s, user.id)
    ensures o.status != Done ==> o.store == s
    ensures o.status == Done ==>
              && o.store.accounts == s.accounts + [Account(s.nextAccountId, user.id, Lower(platform), accountName)]
              && Lower(platform) in ValidPlatforms
              && o.store.users == s.users
              && o.store.posts == s.posts
    ensures Valid(s) ==> Valid(o.store)
  {
    if !IsValidPlatform(platform) then Outcome(s, InvalidPlatform)
    else if accountName == "" then Outcome(s, MissingAccountName)
    else if fault || !IsUserId(s, user.id) then Outcome(s, StoreError)
    else Outcome(InsertAccount(s, user.id, Lower(platform), accountName), Done)
  }

  /** What is stored does not depend on the optional `age` and `city`. */
  lemma ConnectIgnoresExtras(s: Store, user: Session, platform: string, accountName: string,
                             e1: Extras, e2: Extras, fault: bool)
    ensures Connect(s, user, platform, accountName, e1, fault) == Connect(s, user, platform, accountName, e2, fault)
  {
  }
}
