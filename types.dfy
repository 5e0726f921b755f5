/** The shared record types of the frontend: a user's profile as read back
    from the store, and the signed-in account. */
module Types {
  import opened Wrappers

  datatype Availability = Open | Exploring | Focusing

  /** A profile as the frontend reads it (`{ id, ...doc.data() }`); the
      achievement, certification and link lists are not read by the modelled
      logic and are left out. */
  datatype UserProfile = UserProfile(
    id: string, name: string, email: string, college: string, avatar: string, headline: string,
    skills: seq<string>, interests: seq<string>, availability: Availability, reputation: int,
    currentFocus: string, bio: string)

  /** The signed-in account as the identity client reports it. */
  datatype FirebaseUser = FirebaseUser(uid: string, email: Option<string>, displayName: Option<string>, photoURL: Option<string>)

  /** The generated-avatar address the frontend falls back to; the seed is
      appended. */
  const DicebearPrefix: string := "https://api.dicebear.com/7.x/avataaars/svg?seed="
}
