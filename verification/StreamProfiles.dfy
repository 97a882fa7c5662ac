/** The stream profiles by name. */
module StreamProfiles {
  datatype Profile = Main | Sub | OtherName

  /** The profiles a camera can have. */
  type StreamProfile = p: Profile | p != OtherName witness Main
}
