/** The task record of the todo pages. */
module TodoTypes {

  datatype Priority = Low | Medium | High

  /** Where a task belongs; stored under its Russian token. */
  datatype Location = Home | Work | Family | Hobby

  datatype TodoItem = TodoItem(
    id: string,
    title: string,
    description: string,
    author: string,
    priority: Priority,
    mood: string,
    location: Location,
    completed: bool,
    date: string)  // YYYY-MM-DD

  /** The literal stored for a priority. */
  function PriorityToken(p: Priority): string
  {
    match p
    case Low => "low"
    case Medium => "medium"
    case High => "high"
  }

  /** The literal stored for a location. */
  function LocationToken(l: Location): string
  {
    match l
    case Home => "дом"
    case Work => "работа"
    case Family => "семья"
    case Hobby => "хобби"
  }
}
