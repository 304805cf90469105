/** The closed set of role categories a position label is classified into,
    and the strings the scorers store in the `Position_Category` column. */
module Positions {

  datatype Role = GK | FW | DF | MF | Unknown

  function RoleName(r: Role): string
  {
    match r
    case GK => "GK"
    case FW => "FW"
    case DF => "DF"
    case MF => "MF"
    case Unknown => "Unknown"
  }
}
