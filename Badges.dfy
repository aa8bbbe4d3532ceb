/** The variants of the badge component the pages choose between. */
module Badges {
  datatype BadgeVariant = Default | Secondary | Outline | Destructive
}
