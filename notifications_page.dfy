/** The notifications page: the category filter over the listed notifications, the label of
    each notification type, and the badge variant chosen from the type's name. */
module NotificationsPage {
  import opened Seqs
  import opened Strings
  import opened Schema

  /** `selectedFilter`. */
  datatype Category = AllTypes | TaskTypes | ProjectTypes | CommentTypes

  /** `filterMap`: the type names of each category. */
  function AllowedTypes(c: Category): seq<string>
  {
    match c
    case AllTypes => []
    case TaskTypes => ["TASK_ASSIGNED", "TASK_UPDATED", "TASK_COMPLETED", "TASK_CREATED", "TASK_DELETED", "TASK_STATUS_CHANGED"]
    case ProjectTypes => ["PROJECT_CREATED", "PROJECT_DELETED"]
    case CommentTypes => ["COMMENT_ADDED"]
  }

  /** The category a notification type belongs to, by what it is about. */
  function CategoryOf(t: NotificationType): Category
  {
    match t
    case TaskAssigned => TaskTypes
    case TaskUpdated => TaskTypes
    case TaskCompleted => TaskTypes
    case TaskCreated => TaskTypes
    case TaskDeleted => TaskTypes
    case TaskStatusChanged => TaskTypes
    case ProjectCreated => ProjectTypes
    case ProjectDeleted => ProjectTypes
    case CommentAdded => CommentTypes
  }

  /** The category lists name each type in exactly its own category: the three lists are
      disjoint and together name all nine types. */
  lemma AllowedIsCategory(t: NotificationType, c: Category)
    requires c != AllTypes
    ensures TypeName(t) in AllowedTypes(c) <==> CategoryOf(t) == c
  {
  }

  function TypeAllowed(c: Category): Notification -> bool
  {
    (n: Notification) => TypeName(n.kind) in AllowedTypes(c)
  }

  function InCategory(c: Category): Notification -> bool
  {
    (n: Notification) => CategoryOf(n.kind) == c
  }

  /** `getFilteredNotifications`. */
  function FilteredNotifications(ns: seq<Notification>, c: Category): (r: seq<Notification>)
    ensures c == AllTypes ==> r == ns
    ensures |r| <= |ns|
  {
    if c == AllTypes then ns else Filter(ns, TypeAllowed(c))
  }

  /** A category filter keeps, in order, exactly the notifications of that category. */
  lemma FilteredIsCategory(ns: seq<Notification>, c: Category)
    requires c != AllTypes
    ensures FilteredNotifications(ns, c) == Filter(ns, InCategory(c))
  {
    forall i | 0 <= i < |ns| ensures TypeAllowed(c)(ns[i]) == InCategory(c)(ns[i]) {
      AllowedIsCategory(ns[i].kind, c);
    }
    FilterEquiv(ns, TypeAllowed(c), InCategory(c));
  }

  /** `getNotificationLabel`: the Spanish label of each known type name, and the name itself
      for any other. */
  function Label(name: string): string
  {
    if name == "TASK_CREATED" then "Tarea Creada"
    else if name == "TASK_ASSIGNED" then "Tarea Asignada"
    else if name == "TASK_UPDATED" then "Tarea Actualizada"
    else if name == "TASK_COMPLETED" then "Tarea Completada"
    else if name == "TASK_STATUS_CHANGED" then "Estado de Tarea"
    else if name == "TASK_DELETED" then "Tarea Eliminada"
    else if name == "PROJECT_CREATED" then "Proyecto Creado"
    else if name == "PROJECT_DELETED" then "Proyecto Eliminado"
    else if name == "COMMENT_ADDED" then "Comentario A\U{00F1}adido"
    else name
  }

  /** Different types get different labels. */
  lemma LabelsDistinct(a: NotificationType, b: NotificationType)
    requires a != b
    ensures Label(TypeName(a)) != Label(TypeName(b))
  {
    LabelOfType(a);
    LabelOfType(b);
  }

  /** The label of each known type. */
  lemma LabelOfType(t: NotificationType)
    ensures Label(TypeName(t)) == match t
      case TaskCreated => "Tarea Creada"
      case TaskAssigned => "Tarea Asignada"
      case TaskUpdated => "Tarea Actualizada"
      case TaskCompleted => "Tarea Completada"
      case TaskStatusChanged => "Estado de Tarea"
      case TaskDeleted => "Tarea Eliminada"
      case ProjectCreated => "Proyecto Creado"
      case ProjectDeleted => "Proyecto Eliminado"
      case CommentAdded => "Comentario A\U{00F1}adido"
  {
  }

  /** A name that is no known type is shown as it is. */
  lemma LabelOfUnknown(name: string)
    requires forall t :: TypeName(t) != name
    ensures Label(name) == name
  {
    assert TypeName(TaskCreated) != name && TypeName(TaskAssigned) != name && TypeName(TaskUpdated) != name;
    assert TypeName(TaskCompleted) != name && TypeName(TaskStatusChanged) != name && TypeName(TaskDeleted) != name;
    assert TypeName(ProjectCreated) != name && TypeName(ProjectDeleted) != name && TypeName(CommentAdded) != name;
  }

  /** `getBadgeVariant`: the first of "TASK", "PROJECT", "COMMENT" the name contains decides. */
  function BadgeVariant(name: string): string
  {
    if Contains(name, "TASK") then "default"
    else if Contains(name, "PROJECT") then "secondary"
    else if Contains(name, "COMMENT") then "outline"
    else "default"
  }

  /** The badge a category's notifications carry. */
  function CategoryBadge(c: Category): string
  {
    match c
    case AllTypes => "default"
    case TaskTypes => "default"
    case ProjectTypes => "secondary"
    case CommentTypes => "outline"
  }

  /** The badge of every type agrees with its category. */
  lemma BadgeFollowsCategory(t: NotificationType)
    ensures BadgeVariant(TypeName(t)) == CategoryBadge(CategoryOf(t))
  {
    match CategoryOf(t)
    case TaskTypes => TaskBadge(t);
    case ProjectTypes => ProjectBadge(t);
    case CommentTypes => CommentBadge(t);
  }

  lemma TaskBadge(t: NotificationType)
    requires CategoryOf(t) == TaskTypes
    ensures BadgeVariant(TypeName(t)) == "default"
  {
    assert StartsWith(TypeName(t), "TASK");
  }

  lemma ProjectBadge(t: NotificationType)
    requires CategoryOf(t) == ProjectTypes
    ensures BadgeVariant(TypeName(t)) == "secondary"
  {
    MissingCharNotContained(TypeName(t), "TASK", 3);
    assert StartsWith(TypeName(t), "PROJECT");
  }

  lemma CommentBadge(t: NotificationType)
    requires CategoryOf(t) == CommentTypes
    ensures BadgeVariant(TypeName(t)) == "outline"
  {
    var name := TypeName(t);
    assert name == "COMMENT_ADDED";
    MissingCharNotContained(name, "TASK", 3);
    MissingCharNotContained(name, "PROJECT", 3);
    assert StartsWith(name, "COMMENT");
  }
}
